/** The five underwater routing protocols the dashboard compares. Every view
    refers to a protocol by its short name; the simulation's select box, the
    comparison's buttons and the trend chart's legend all draw from this
    fixed list. */
module Protocols {
  import opened Text

  datatype Protocol = VBF | HHVBF | DBR | EEDBR | OLSR

  function Name(p: Protocol): (s: string)
    ensures |s| >= 3
    ensures forall i :: 0 <= i < |s| ==> 'A' <= s[i] <= 'Z'
  {
    match p
    case VBF => "VBF"
    case HHVBF => "HHVBF"
    case DBR => "DBR"
    case EEDBR => "EEDBR"
    case OLSR => "OLSR"
  }

  function FromName(s: string): Option<Protocol> {
    if s == "VBF" then Some(VBF)
    else if s == "HHVBF" then Some(HHVBF)
    else if s == "DBR" then Some(DBR)
    else if s == "EEDBR" then Some(EEDBR)
    else if s == "OLSR" then Some(OLSR)
    else None
  }

  /** A protocol's name reads back as that protocol, so names are distinct. */
  lemma NameRoundTrip(p: Protocol)
    ensures FromName(Name(p)) == Some(p)
  {
  }

  lemma NameInjective(p: Protocol, q: Protocol)
    requires Name(p) == Name(q)
    ensures p == q
  {
    NameRoundTrip(p);
    NameRoundTrip(q);
  }

  /** Names are upper-case letters only, so they contain no separator used
      by the CSV export. */
  lemma NameHasNoSeparator(p: Protocol, c: char)
    requires !('A' <= c <= 'Z')
    ensures c !in Name(p)
  {
  }
}
