/** The connection stacks of a forward transport (`plugin/forward/persistent.go`, `type.go`):
    which connection a dial takes, and where a cleanup cuts.  */
module Stacks {
  /** `transportType`: udp, tcp and tcp-tls. */
  type Kind = k: nat | k < 3

  const TYPE_UDP: Kind := 0
  const TYPE_TCP: Kind := 1
  const TYPE_TLS: Kind := 2

  /** `stringToTransportType` */
  function KindOf(proto: string): Kind {
    if proto == "tcp" then TYPE_TCP else if proto == "tcp-tls" then TYPE_TLS else TYPE_UDP
  }

  /** `transportTypeFromConn` */
  function KindOfConn(isUdp: bool, tls: bool): Kind {
    if isUdp then TYPE_UDP else if tls then TYPE_TLS else TYPE_TCP
  }

  // A stack is described by the `used` stamps of its connections, bottom first.

  predicate Expired(used: int, now: int, expire: int) {
    used <= now - expire
  }

  /** Whether a dial takes the top of the stack; otherwise it clears the stack. */
  predicate TakesTop(stamps: seq<int>, now: int, expire: int) {
    stamps != [] && now - stamps[|stamps| - 1] < expire
  }

  /** `sort.Search` for the first stamp after `stale`, between `i` and `j`. */
  function SearchFrom(stamps: seq<int>, stale: int, i: nat, j: nat): nat
    requires i <= j <= |stamps|
    decreases j - i
  {
    if i == j then i
    else
      var h := (i + j) / 2;
      if stamps[h] > stale then SearchFrom(stamps, stale, i, h) else SearchFrom(stamps, stale, h + 1, j)
  }

  /** How many connections `cleanup(false)` cuts off the bottom of a stack. */
  function CutAt(stamps: seq<int>, stale: int): (n: nat)
    ensures n <= |stamps|
  {
    SearchInRange(stamps, stale, 0, |stamps|);
    if stamps == [] || stamps[0] > stale then 0 else SearchFrom(stamps, stale, 0, |stamps|)
  }

  lemma {:induction false} SearchInRange(stamps: seq<int>, stale: int, i: nat, j: nat)
    requires i <= j <= |stamps|
    ensures i <= SearchFrom(stamps, stale, i, j) <= j
    decreases j - i
  {
    if i < j {
      var h := (i + j) / 2;
      if stamps[h] > stale {
        SearchInRange(stamps, stale, i, h);
      } else {
        SearchInRange(stamps, stale, h + 1, j);
      }
    }
  }

  ghost predicate SortedStamps(stamps: seq<int>) {
    forall i, j :: 0 <= i < j < |stamps| ==> stamps[i] <= stamps[j]
  }

  /** The first `n` are stale, the others are not. */
  ghost predicate SplitsAt(stamps: seq<int>, stale: int, n: int) {
    && 0 <= n <= |stamps|
    && (forall i :: 0 <= i < n ==> stamps[i] <= stale)
    && forall i :: n <= i < |stamps| ==> stamps[i] > stale
  }

  lemma {:induction false} SearchFinds(stamps: seq<int>, stale: int, i: nat, j: nat, n: nat)
    requires i <= n <= j <= |stamps| && SplitsAt(stamps, stale, n)
    ensures SearchFrom(stamps, stale, i, j) == n
    decreases j - i
  {
    if i < j {
      var h := (i + j) / 2;
      if stamps[h] > stale {
        SearchFinds(stamps, stale, i, h, n);
      } else {
        SearchFinds(stamps, stale, h + 1, j, n);
      }
    }
  }

  /** A cleanup cuts off the stale connections and no others exactly when the stale ones lie
      below the others. */
  lemma {:induction false} CutExactly(stamps: seq<int>, stale: int)
    ensures SplitsAt(stamps, stale, CutAt(stamps, stale)) <==> exists n :: SplitsAt(stamps, stale, n)
  {
    if n :| SplitsAt(stamps, stale, n) {
      SearchFinds(stamps, stale, 0, |stamps|, n);
    }
  }

  lemma {:induction false} SortedSplits(stamps: seq<int>, stale: int)
    requires SortedStamps(stamps)
    ensures exists n :: SplitsAt(stamps, stale, n)
  {
    if stamps == [] || stamps[|stamps| - 1] <= stale {
      assert SplitsAt(stamps, stale, |stamps|);
    } else {
      var m := stamps[..|stamps| - 1];
      SortedSplits(m, stale);
      var n :| SplitsAt(m, stale, n);
      assert forall i :: 0 <= i < |m| ==> stamps[i] == m[i];
      assert SplitsAt(stamps, stale, n);
    }
  }

  /** In a sorted stack a cleanup is exact, and a dial that clears the stack clears only
      expired connections. */
  lemma {:induction false} SortedIsExact(stamps: seq<int>, now: int, expire: int)
    requires SortedStamps(stamps)
    ensures SplitsAt(stamps, now - expire, CutAt(stamps, now - expire))
    ensures !TakesTop(stamps, now, expire) ==> forall i :: 0 <= i < |stamps| ==> Expired(stamps[i], now, expire)
  {
    SortedSplits(stamps, now - expire);
    CutExactly(stamps, now - expire);
  }
}
