/** Resource records, as far as the server looks into them. */
module Records {
  import opened Names

  type RRType = nat

  const TYPE_A: PlainType := 1
  const TYPE_NS: RRType := 2
  const TYPE_CNAME: RRType := 5
  const TYPE_SOA: RRType := 6
  const TYPE_MX: RRType := 15
  const TYPE_TXT: PlainType := 16
  const TYPE_AAAA: PlainType := 28
  const TYPE_SRV: RRType := 33
  const TYPE_DNAME: RRType := 39
  const TYPE_OPT: PlainType := 41
  const TYPE_DS: PlainType := 43
  const TYPE_RRSIG: RRType := 46
  const TYPE_NSEC: RRType := 47
  const TYPE_NSEC3: PlainType := 50
  const TYPE_NSEC3PARAM: PlainType := 51
  const TYPE_IXFR: RRType := 251
  const TYPE_AXFR: RRType := 252

  /** Types whose data the server does not read. */
  type PlainType = t: RRType | t !in {2, 5, 6, 15, 33, 39, 46, 47} witness 1

  /** The data of a record; `text` stands for the parts that are not read. */
  datatype RData =
    | SOA(mname: Name, mbox: Name, serial: nat)
    | NS(host: Name)
    | CNAME(target: Name)
    | DNAME(target: Name)
    | MX(exchange: Name, text: string)
    | SRV(server: Name, text: string)
    | RRSIG(covered: RRType)
    | NSEC(next: Name, types: multiset<RRType>)
    | Plain(rrtype: PlainType, text: string)

  datatype RR = RR(owner: Name, ttl: nat, data: RData) {
    /** `Header().Rrtype` */
    function Type(): RRType {
      match data
      case SOA(_, _, _) => TYPE_SOA
      case NS(_) => TYPE_NS
      case CNAME(_) => TYPE_CNAME
      case DNAME(_) => TYPE_DNAME
      case MX(_, _) => TYPE_MX
      case SRV(_, _) => TYPE_SRV
      case RRSIG(_) => TYPE_RRSIG
      case NSEC(_, _) => TYPE_NSEC
      case Plain(t, _) => t
    }
  }

  /** The RRsets of one name, each in insertion order. */
  type RRsets = map<RRType, seq<RR>>

  /** `Elem.Insert`: append, duplicates included. */
  function AddRR(m: RRsets, rr: RR): RRsets {
    m[rr.Type() := OfType(m, rr.Type()) + [rr]]
  }

  /** `Elem.Type`: the RRset of a type, empty when there is none. */
  function OfType(m: RRsets, t: RRType): seq<RR> {
    if t in m then m[t] else []
  }

  /** What the tree keeps at a name: no empty RRset, every record under its owner and type. */
  ghost predicate Proper(m: RRsets, owner: Name) {
    forall t :: t in m ==> m[t] != [] && forall i :: 0 <= i < |m[t]| ==> m[t][i].owner == owner && m[t][i].Type() == t
  }
}
