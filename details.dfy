/** The event details section: addresses shown in title case, and the set of
    items whose "copied" confirmation is showing. */
module Details {
  import opened Text

  /** One comma-separated part of an address: trimmed, first character
      upper-cased, the rest lower-cased. */
  function FormatPart(p: string): (r: string)
    ensures |r| == |Trim(p)|
    ensures r == [] <==> Trim(p) == []
    ensures r != [] ==> r[0] == Upper(Trim(p)[0])
    ensures forall i :: 1 <= i < |r| ==> r[i] == Lower(Trim(p)[i])
    ensures Trimmed(r)
  {
    var t := Trim(p);
    if t == [] then [] else [Upper(t[0])] + LowerStr(t[1..])
  }

  /** A part without a comma formats to a part without a comma. */
  lemma FormatPartNoComma(p: string)
    requires ',' !in p
    ensures ',' !in FormatPart(p)
  {
    TrimKeepsOut(p, ',');
    var t := Trim(p);
    var r := FormatPart(p);
    forall i | 0 <= i < |r| ensures r[i] != ',' {
      assert t[i] != ',';
    }
  }

  /** Formatting a formatted part changes nothing. */
  lemma FormatPartIdempotent(p: string)
    ensures FormatPart(FormatPart(p)) == FormatPart(p)
  {
    var r := FormatPart(p);
    TrimOfTrimmed(r);
    if r != [] {
      var t := Trim(p);
      UpperIdempotent(t[0]);
      var r2 := FormatPart(r);
      assert |r2| == |r| && r2[0] == r[0];
      forall i | 1 <= i < |r| ensures r2[i] == r[i] {
        assert r2[i] == Lower(r[i]);
        assert r[i] == Lower(t[i]);
      }
      assert r2 == r;
    }
  }

  /** The parts of the address, each formatted. */
  function FormatParts(parts: seq<string>): (r: seq<string>)
    ensures |r| == |parts|
    ensures forall i :: 0 <= i < |parts| ==> r[i] == FormatPart(parts[i])
  {
    seq(|parts|, i requires 0 <= i < |parts| => FormatPart(parts[i]))
  }

  /** `formatAddress`: split on ",", format each part, join with ", ".
      The result has exactly as many commas as the address, so it has as
      many parts. */
  function FormatAddress(address: string): (r: string)
    ensures Count(r, ',') == Count(address, ',')
  {
    var r := Join(FormatParts(Split(address, ",")), ", ");
    SplitFormatted(address);
    SplitCount(r, ',');
    SplitCount(address, ',');
    r
  }

  /** Every part but the first preceded by the space of the ", " separator. */
  function Indent(parts: seq<string>): (r: seq<string>)
    ensures |r| == |parts|
    ensures |parts| > 0 ==> r[0] == parts[0]
    ensures forall i :: 1 <= i < |parts| ==> r[i] == " " + parts[i]
  {
    seq(|parts|, i requires 0 <= i < |parts| => if i == 0 then parts[i] else " " + parts[i])
  }

  /** Joining with ", " is joining the indented parts with ",". */
  lemma {:induction false} JoinIndent(parts: seq<string>)
    requires |parts| >= 1
    ensures Join(parts, ", ") == Join(Indent(parts), ",")
    decreases |parts|
  {
    if |parts| >= 2 {
      var tail := parts[1..];
      JoinIndent(tail);
      var it := Indent(tail);
      var ip := Indent(parts);
      JoinCons(parts[0], tail, ", ");
      JoinCons(ip[0], ip[1..], ",");
      assert ip == [ip[0]] + ip[1..];
      // the indented tail of `parts` is `it` with its first part indented
      if |tail| == 1 {
        assert ip[1..] == [" " + tail[0]];
      } else {
        JoinCons(it[0], it[1..], ",");
        JoinCons(ip[1], ip[2..], ",");
        assert ip[1..] == [ip[1]] + ip[2..];
        assert it == [it[0]] + it[1..];
        assert ip[2..] == it[1..];
      }
    }
  }

  /** Splitting a formatted address on "," gives the formatted parts, every
      one but the first after the space of the separator. */
  lemma SplitFormatted(address: string)
    ensures Split(Join(FormatParts(Split(address, ",")), ", "), ",") == Indent(FormatParts(Split(address, ",")))
  {
    var parts := Split(address, ",");
    var ps := FormatParts(parts);
    JoinIndent(ps);
    forall i | 0 <= i < |parts| ensures ',' !in parts[i] {
      SplitPiecesLackSeparator(address, ',', i);
    }
    var ip := Indent(ps);
    forall i | 0 <= i < |ip| ensures ',' !in ip[i] {
      FormatPartNoComma(parts[i]);
    }
    SplitJoin(ip, ',');
  }

  /** No piece of a split on a character holds that character. */
  lemma {:induction false} SplitPiecesLackSeparator(s: string, c: char, i: int)
    requires 0 <= i < |Split(s, [c])|
    ensures c !in Split(s, [c])[i]
    decreases |s|
  {
    match IndexOf(s, [c], 0)
    case None =>
      if c in s {
        var k :| 0 <= k < |s| && s[k] == c;
        OccursSingle(s, c, k);
      }
    case Some(k) =>
      if i == 0 {
        if c in s[..k] {
          var j :| 0 <= j < k && s[j] == c;
          OccursSingle(s, c, j);
        }
      } else {
        SplitPiecesLackSeparator(s[k + 1..], c, i - 1);
      }
  }

  /** Formatting an address twice is formatting it once. */
  lemma FormatAddressIdempotent(address: string)
    ensures FormatAddress(FormatAddress(address)) == FormatAddress(address)
  {
    var once := FormatAddress(address);
    var ps := FormatParts(Split(address, ","));
    SplitFormatted(address);
    var ip := Indent(ps);
    var again := FormatParts(ip);
    forall i | 0 <= i < |ps| ensures again[i] == ps[i] {
      FormatPartIdempotent(Split(address, ",")[i]);
      if i > 0 {
        TrimLeadingSpace(ps[i]);
      }
    }
    assert again == ps;
  }

  /** The set of copied items whose confirmation is showing, and what the
      clipboard holds. */
  class CopyTracker {
    var copiedItems: set<string>
    var clipboard: string

    constructor ()
      ensures copiedItems == {} && clipboard == ""
    {
      copiedItems := {};
      clipboard := "";
    }

    /** `copyToClipboard(text, itemId)`; `writeOk` says whether the
        clipboard accepted the text. */
    method CopyToClipboard(text: string, itemId: string, writeOk: bool)
      modifies this
      ensures writeOk ==> clipboard == text && copiedItems == old(copiedItems) + {itemId}
      ensures !writeOk ==> clipboard == old(clipboard) && copiedItems == old(copiedItems)
    {
      if writeOk {
        clipboard := text;
        copiedItems := copiedItems + {itemId};
      }
    }

    /** The 2000 ms timer after a copy of `itemId`. */
    method ExpireCopied(itemId: string)
      modifies this`copiedItems
      ensures copiedItems == old(copiedItems) - {itemId}
    {
      copiedItems := copiedItems - {itemId};
    }
  }
}
