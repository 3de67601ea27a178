/** The guest book section: from the fetched guest list it keeps the
    confirmed guests, orders them VIPs first and most recently updated
    first, adds up the seats they hold, and flags a rise in that total. */
module BookOfGuests {
  import opened Wrappers
  import opened Text

  datatype Status = Pending | Confirmed | Declined | Request

  /** The fields of a guest record that the guest book reads. `updatedAt`
      is already a time in milliseconds; None stands for a missing or empty one. */
  datatype Guest = Guest(
    id: string,
    name: string,
    allowedGuests: nat,
    isVip: bool,
    status: Status,
    updatedAt: Option<int>)

  // ----- filter -----

  /** `data.filter(guest => guest.status === "confirmed")`. */
  function ConfirmedOnly(data: seq<Guest>): (r: seq<Guest>)
    ensures forall i :: 0 <= i < |r| ==> r[i].status == Confirmed
    ensures |r| <= |data|
  {
    if data == [] then []
    else (if data[0].status == Confirmed then [data[0]] else []) + ConfirmedOnly(data[1..])
  }

  /** The filter keeps every confirmed guest as often as the input holds it,
      and nothing else. */
  lemma {:induction false} ConfirmedOnlyCounts(data: seq<Guest>)
    ensures forall g :: multiset(ConfirmedOnly(data))[g] == if g.status == Confirmed then multiset(data)[g] else 0
  {
    if data != [] {
      ConfirmedOnlyCounts(data[1..]);
      assert data == [data[0]] + data[1..];
    }
  }

  // ----- order -----

  /** `new Date(updatedAt || 0).getTime()`: a missing time counts as 0. */
  function Timestamp(g: Guest): int {
    g.updatedAt.GetOr(0)
  }

  /** The comparator passed to `sort`: negative when `a` goes first. */
  function Compare(a: Guest, b: Guest): int {
    if a.isVip && !b.isVip then -1
    else if !a.isVip && b.isVip then 1
    else Timestamp(b) - Timestamp(a)
  }

  /** `a` may precede `b`: a VIP before a non-VIP, and otherwise the later
      update first. */
  predicate InOrder(a: Guest, b: Guest)
    ensures InOrder(a, b) <==> Compare(a, b) <= 0
  {
    (a.isVip && !b.isVip) || (a.isVip == b.isVip && Timestamp(a) >= Timestamp(b))
  }

  lemma InOrderTotal(a: Guest, b: Guest)
    ensures InOrder(a, b) || InOrder(b, a)
  {
  }

  lemma InOrderTransitive(a: Guest, b: Guest, c: Guest)
    requires InOrder(a, b) && InOrder(b, c)
    ensures InOrder(a, c)
  {
  }

  predicate Sorted(s: seq<Guest>) {
    forall i, j :: 0 <= i < j < |s| ==> InOrder(s[i], s[j])
  }

  /** Insert `g` before the first guest it may precede. */
  function Insert(g: Guest, s: seq<Guest>): (r: seq<Guest>)
    ensures multiset(r) == multiset(s) + multiset{g}
    ensures |r| == |s| + 1
  {
    if s == [] then [g]
    else if InOrder(g, s[0]) then [g] + s
    else
      assert s == [s[0]] + s[1..];
      [s[0]] + Insert(g, s[1..])
  }

  /** Inserting into a sorted list keeps it sorted. */
  lemma {:induction false} InsertSorted(g: Guest, s: seq<Guest>)
    requires Sorted(s)
    ensures Sorted(Insert(g, s))
    decreases |s|
  {
    if s == [] {
    } else if InOrder(g, s[0]) {
      forall j | 0 <= j < |s| ensures InOrder(g, s[j]) {
        if j > 0 { InOrderTransitive(g, s[0], s[j]); }
      }
    } else {
      var rest := Insert(g, s[1..]);
      InsertSorted(g, s[1..]);
      assert s == [s[0]] + s[1..];
      forall j | 0 <= j < |rest| ensures InOrder(s[0], rest[j]) {
        assert rest[j] in multiset(rest);
        if rest[j] == g {
          InOrderTotal(g, s[0]);
        } else {
          assert rest[j] in multiset(s[1..]);
          var k :| 0 <= k < |s[1..]| && s[1..][k] == rest[j];
          assert s[k + 1] == rest[j];
        }
      }
    }
  }

  /** `Array.prototype.sort` with the comparator: a stable insertion sort. */
  function SortGuests(s: seq<Guest>): (r: seq<Guest>)
    ensures |r| == |s|
    ensures Sorted(r)
  {
    if s == [] then []
    else
      InsertSorted(s[0], SortGuests(s[1..]));
      Insert(s[0], SortGuests(s[1..]))
  }

  /** The sort is a permutation of its input. */
  lemma {:induction false} SortGuestsPermutes(s: seq<Guest>)
    ensures multiset(SortGuests(s)) == multiset(s)
  {
    if s != [] {
      SortGuestsPermutes(s[1..]);
      assert s == [s[0]] + s[1..];
    }
  }

  /** In a sorted list every VIP comes before every non-VIP, and guests with
      the same VIP flag are in non-increasing order of update time. */
  lemma SortedOrder(s: seq<Guest>, i: int, j: int)
    requires Sorted(s) && 0 <= i < j < |s|
    ensures s[j].isVip ==> s[i].isVip
    ensures s[i].isVip == s[j].isVip ==> Timestamp(s[i]) >= Timestamp(s[j])
  {
  }

  /** A guest without an update time comes after every guest of the same VIP
      flag whose update time is positive. */
  lemma MissingTimeSortsAfterPositive(s: seq<Guest>, i: int, j: int)
    requires Sorted(s) && 0 <= i < |s| && 0 <= j < |s|
    requires s[i].isVip == s[j].isVip
    requires s[i].updatedAt.None? && s[j].updatedAt.Some? && s[j].updatedAt.value > 0
    ensures j < i
  {
  }

  // ----- headcount -----

  /** `guest.allowedGuests || 1`: an allowance of 0 counts as one seat. */
  function Seats(g: Guest): (n: nat)
    ensures n >= 1
  {
    if g.allowedGuests == 0 then 1 else g.allowedGuests
  }

  /** `guests.reduce((sum, guest) => sum + (guest.allowedGuests || 1), 0)`. */
  function HeadCount(guests: seq<Guest>): (n: nat)
    ensures n >= |guests|
  {
    if guests == [] then 0 else Seats(guests[0]) + HeadCount(guests[1..])
  }

  /** Reference definition: the seats of the confirmed guests of a list,
      other statuses contributing nothing. */
  function ConfirmedSeats(data: seq<Guest>): nat {
    if data == [] then 0
    else (if data[0].status == Confirmed then Seats(data[0]) else 0) + ConfirmedSeats(data[1..])
  }

  lemma {:induction false} HeadCountInsert(g: Guest, s: seq<Guest>)
    ensures HeadCount(Insert(g, s)) == Seats(g) + HeadCount(s)
  {
    if s != [] && !InOrder(g, s[0]) {
      HeadCountInsert(g, s[1..]);
      assert Insert(g, s)[1..] == Insert(g, s[1..]);
    }
  }

  /** The order of the guests does not change the headcount. */
  lemma {:induction false} HeadCountSorted(s: seq<Guest>)
    ensures HeadCount(SortGuests(s)) == HeadCount(s)
  {
    if s != [] {
      HeadCountSorted(s[1..]);
      HeadCountInsert(s[0], SortGuests(s[1..]));
    }
  }

  lemma {:induction false} HeadCountOfConfirmed(data: seq<Guest>)
    ensures HeadCount(ConfirmedOnly(data)) == ConfirmedSeats(data)
  {
    if data != [] {
      var rest := ConfirmedOnly(data[1..]);
      HeadCountOfConfirmed(data[1..]);
      if data[0].status == Confirmed {
        assert ConfirmedOnly(data) == [data[0]] + rest;
        assert ([data[0]] + rest)[1..] == rest;
      } else {
        assert ConfirmedOnly(data) == rest;
      }
    }
  }

  // ----- one fetch -----

  /** What one fetch derives: the ordered confirmed guests, their number and their seats. */
  datatype Derived = Derived(confirmed: seq<Guest>, rsvpCount: nat, total: nat)

  /** Lines 70-87: filter, sort in place, count and sum. The sum runs over the
      array after the in-place sort. */
  function Derive(data: seq<Guest>): (d: Derived)
    ensures Sorted(d.confirmed)
    ensures d.rsvpCount == |d.confirmed| <= d.total
  {
    var sorted := SortGuests(ConfirmedOnly(data));
    Derived(sorted, |sorted|, HeadCount(sorted))
  }

  /** A fetch keeps exactly the confirmed guests (each as often as the input
      holds it), orders them, and its total is the seats of the confirmed
      guests, never fewer than their number. */
  lemma DeriveCorrect(data: seq<Guest>)
    ensures var d := Derive(data);
      && (forall g :: multiset(d.confirmed)[g] == if g.status == Confirmed then multiset(data)[g] else 0)
      && Sorted(d.confirmed)
      && d.rsvpCount == |d.confirmed| == |ConfirmedOnly(data)|
      && d.total == ConfirmedSeats(data)
      && d.total >= d.rsvpCount
  {
    ConfirmedOnlyCounts(data);
    SortGuestsPermutes(ConfirmedOnly(data));
    HeadCountSorted(ConfirmedOnly(data));
    HeadCountOfConfirmed(data);
  }

  /** A list of confirmed guests in display order, with its count and total. */
  ghost predicate Consistent(d: Derived) {
    && d.rsvpCount == |d.confirmed|
    && d.total == HeadCount(d.confirmed)
    && d.total >= d.rsvpCount
    && Sorted(d.confirmed)
    && (forall i :: 0 <= i < |d.confirmed| ==> d.confirmed[i].status == Confirmed)
  }

  /** The derived list holds confirmed guests only, in order, and the count
      and total belong to it. */
  lemma DeriveConsistent(data: seq<Guest>)
    ensures Consistent(Derive(data))
  {
    var c := Derive(data).confirmed;
    SortGuestsPermutes(ConfirmedOnly(data));
    var f := ConfirmedOnly(data);
    forall i | 0 <= i < |c| ensures c[i].status == Confirmed {
      assert c[i] in multiset(c);
      assert c[i] in multiset(f);
      var k :| 0 <= k < |f| && f[k] == c[i];
    }
  }

  /** What the fetch of line 59 came to: it failed (the fetch threw, the status
      was not ok, or the body was not a JSON array), or it gave a guest list. */
  datatype GuestFetch = FetchFailed | Fetched(data: seq<Guest>)

  /** The state of the guest book section. */
  class GuestBook {
    var totalGuests: nat
    var rsvpCount: nat
    var confirmedGuests: seq<Guest>
    var isRefreshing: bool
    var lastUpdate: int
    var previousTotal: nat
    var showIncrease: bool

    /** The displayed list, count and total always come from one fetch. */
    ghost predicate Valid()
      reads this
    {
      Consistent(Derived(confirmedGuests, rsvpCount, totalGuests))
    }

    constructor (now: int)
      ensures Valid()
      ensures totalGuests == 0 && rsvpCount == 0 && confirmedGuests == []
      ensures !isRefreshing && lastUpdate == now && previousTotal == 0 && !showIncrease
    {
      totalGuests, rsvpCount, confirmedGuests := 0, 0, [];
      isRefreshing, lastUpdate := false, now;
      previousTotal, showIncrease := 0, false;
    }

    /** `fetchGuests(showLoading)` up to its timers: a failed fetch changes
        nothing but the refresh flag; a successful one replaces list, count
        and total, and raises the increase flag when the total rose from a
        non-zero value. */
    method FetchGuests(showLoading: bool, response: GuestFetch, now: int)
      requires Valid()
      modifies this
      ensures Valid()
      ensures isRefreshing == (showLoading || old(isRefreshing))
      ensures response.FetchFailed? ==>
        && totalGuests == old(totalGuests) && rsvpCount == old(rsvpCount)
        && confirmedGuests == old(confirmedGuests) && lastUpdate == old(lastUpdate)
        && previousTotal == old(previousTotal) && showIncrease == old(showIncrease)
      ensures response.Fetched? ==>
        var d := Derive(response.data);
        var rose := d.total > old(totalGuests) && old(totalGuests) > 0;
        && confirmedGuests == d.confirmed && rsvpCount == d.rsvpCount && totalGuests == d.total
        && lastUpdate == now
        && showIncrease == (rose || old(showIncrease))
        && previousTotal == (if rose then old(totalGuests) else old(previousTotal))
    {
      if showLoading {
        isRefreshing := true;
      }
      match response {
        case FetchFailed =>
        case Fetched(data) =>
          var d := Derive(data);
          DeriveConsistent(data);
          if d.total > totalGuests && totalGuests > 0 {
            previousTotal := totalGuests;
            showIncrease := true;
          }
          totalGuests, rsvpCount, confirmedGuests := d.total, d.rsvpCount, d.confirmed;
          assert Derived(confirmedGuests, rsvpCount, totalGuests) == d;
          lastUpdate := now;
      }
    }

    /** The 2000 ms timer after an increase. */
    method EndIncrease()
      modifies this`showIncrease
      ensures !showIncrease
    {
      showIncrease := false;
    }

    /** The 500 ms timer after a fetch with `showLoading`. */
    method EndRefresh()
      modifies this`isRefreshing
      ensures !isRefreshing
    {
      isRefreshing := false;
    }
  }

  // ----- initials -----

  /** The first and the last piece of a split are not empty when the string
      does not begin or end with the separator. */
  lemma {:induction false} SplitOuterPieces(t: string, c: char)
    requires t != [] && t[0] != c && t[|t| - 1] != c
    ensures Split(t, [c])[0] != []
    ensures Split(t, [c])[|Split(t, [c])| - 1] != []
    decreases |t|
  {
    OccursSingle(t, c, 0);
    match IndexOf(t, [c], 0)
    case None =>
    case Some(k) =>
      OccursSingle(t, c, k);
      var rest := t[k + 1..];
      assert rest[|rest| - 1] == t[|t| - 1];
      if rest[0] == c {
        // the last piece comes from `rest`, which starts with the separator;
        // its last piece is still non-empty
        SplitLastPiece(rest, c);
      } else {
        SplitOuterPieces(rest, c);
      }
  }

  lemma {:induction false} SplitLastPiece(t: string, c: char)
    requires t != [] && t[|t| - 1] != c
    ensures Split(t, [c])[|Split(t, [c])| - 1] != []
    decreases |t|
  {
    match IndexOf(t, [c], 0)
    case None =>
    case Some(k) =>
      OccursSingle(t, c, k);
      var rest := t[k + 1..];
      assert rest[|rest| - 1] == t[|t| - 1];
      SplitLastPiece(rest, c);
  }

  /** The words of a trimmed name: with two or more, the first and the last
      are not empty, and the first begins the trimmed name. */
  lemma TrimmedWords(name: string)
    ensures var t := Trim(name); var ws := Split(t, " ");
      |ws| >= 2 ==> t != [] && ws[0] != [] && ws[|ws| - 1] != [] && ws[0][0] == t[0]
  {
    var t := Trim(name);
    if t != [] {
      SplitOuterPieces(t, ' ');
      SplitFirstPiece(t, ' ');
    }
  }

  /** `name.trim().split(' ')`: with two or more words, the first and the
      last are not empty and the first begins the trimmed name. */
  function Words(name: string): (ws: seq<string>)
    ensures ws == Split(Trim(name), " ")
    ensures |ws| >= 2 ==> Trim(name) != [] && ws[0] != [] && ws[|ws| - 1] != [] && ws[0][0] == Trim(name)[0]
  {
    TrimmedWords(name);
    Split(Trim(name), " ")
  }

  /** The initials chosen from the words of a name: with two or more, the
      first letters of the first and the last word; otherwise the first two
      characters of `source`, upper-cased. */
  function InitialsFrom(words: seq<string>, source: string): (r: string)
    requires |words| >= 2 ==> words[0] != [] && words[|words| - 1] != []
    ensures |r| <= 2
    ensures forall i :: 0 <= i < |r| ==> !IsLowerLetter(r[i])
  {
    if |words| >= 2 then [Upper(words[0][0]), Upper(words[|words| - 1][0])] else UpperStr(Prefix(source, 2))
  }

  /** `getInitials(name)`, as written: two or more words give the first
      letters of the first and the last word; otherwise the first two
      characters of the name as given, before trimming. */
  function Initials(name: string): (r: string)
    ensures |r| <= 2
    ensures forall i :: 0 <= i < |r| ==> !IsLowerLetter(r[i])
  {
    InitialsFrom(Words(name), name)
  }

  /** With two or more words: the upper-cased first character of the trimmed
      name and the upper-cased first letter of the last word. */
  lemma InitialsOfSeveralWords(name: string)
    requires |Words(name)| >= 2
    ensures var ws := Words(name);
      Initials(name) == [Upper(Trim(name)[0]), Upper(ws[|ws| - 1][0])]
  {
    var ws := Words(name);
    assert Initials(name) == InitialsFrom(ws, name);
    assert ws[0][0] == Trim(name)[0];
  }

  /** With fewer than two words: the first two characters of the name as
      given, upper-cased. */
  lemma InitialsFallback(name: string)
    requires |Words(name)| < 2
    ensures Initials(name) == UpperStr(Prefix(name, 2))
  {
  }

  lemma JoinFirstChar(ws: seq<string>, sep: string)
    requires |ws| >= 1 && ws[0] != []
    ensures Join(ws, sep) != [] && Join(ws, sep)[0] == ws[0][0]
  {
  }

  lemma {:induction false} JoinLastChar(ws: seq<string>, sep: string)
    requires |ws| >= 1 && ws[|ws| - 1] != []
    ensures var s := Join(ws, sep); s != [] && s[|s| - 1] == ws[|ws| - 1][|ws[|ws| - 1]| - 1]
    decreases |ws|
  {
    if |ws| > 1 {
      JoinLastChar(ws[1..], sep);
    }
  }

  /** A word without whitespace is its own trim and a single piece. */
  lemma OneWord(w: string)
    requires forall j :: 0 <= j < |w| ==> !IsSpace(w[j])
    ensures Trim(w) == w
    ensures Split(w, " ") == [w]
  {
    TrimOfTrimmed(w);
    NoCharNoOccurrence(w, ' ', 0);
  }

  /** Words of no whitespace, joined by single spaces: trimming changes
      nothing and splitting on the space gives the words back. */
  lemma JoinedWords(ws: seq<string>)
    requires |ws| >= 2
    requires forall i :: 0 <= i < |ws| ==> ws[i] != []
    requires forall i, j :: 0 <= i < |ws| && 0 <= j < |ws[i]| ==> !IsSpace(ws[i][j])
    ensures Trim(Join(ws, " ")) == Join(ws, " ")
    ensures Split(Join(ws, " "), " ") == ws
  {
    var s := Join(ws, " ");
    JoinFirstChar(ws, " ");
    JoinLastChar(ws, " ");
    TrimOfTrimmed(s);
    forall i | 0 <= i < |ws| ensures ' ' !in ws[i] {
    }
    SplitJoin(ws, ' ');
  }

  /** Words of no whitespace, joined by single spaces: the initials are the
      upper-cased first letters of the first and the last word. */
  lemma InitialsOfWords(ws: seq<string>)
    requires |ws| >= 2
    requires forall i :: 0 <= i < |ws| ==> ws[i] != []
    requires forall i, j :: 0 <= i < |ws| && 0 <= j < |ws[i]| ==> !IsSpace(ws[i][j])
    ensures Initials(Join(ws, " ")) == [Upper(ws[0][0]), Upper(ws[|ws| - 1][0])]
  {
    var s := Join(ws, " ");
    JoinedWords(ws);
    assert Words(s) == ws;
    assert Initials(s) == InitialsFrom(ws, s);
  }

  /** A single word without whitespace: its first two characters, upper-cased. */
  lemma InitialsOfOneWord(w: string)
    requires forall j :: 0 <= j < |w| ==> !IsSpace(w[j])
    ensures Initials(w) == UpperStr(Prefix(w, 2))
  {
    OneWord(w);
  }

  /** Two leading spaces before a single word: trimming is undone by the
      fallback, which takes the first two characters of the untrimmed name. */
  lemma IndentedWord(w: string)
    requires forall j :: 0 <= j < |w| ==> !IsSpace(w[j])
    ensures Trim("  " + w) == w
    ensures Prefix("  " + w, 2) == "  "
  {
    IndentedTrim(w);
    assert ("  " + w)[..2] == "  ";
  }

  lemma IndentedTrim(w: string)
    requires forall j :: 0 <= j < |w| ==> !IsSpace(w[j])
    ensures Trim("  " + w) == w
  {
    TrimLeadingSpace(" " + w);
    TrimLeadingSpace(w);
    assert "  " + w == " " + (" " + w);
    TrimOfTrimmed(w);
  }

  /** As written, a single word after two leading spaces yields two spaces,
      so `getInitials("  Maria")` is `"  "`. */
  lemma InitialsOfIndentedWord(w: string)
    requires forall j :: 0 <= j < |w| ==> !IsSpace(w[j])
    ensures Initials("  " + w) == "  "
  {
    var name := "  " + w;
    IndentedWord(w);
    OneWord(w);
    assert Words(name) == [w];
    assert Initials(name) == InitialsFrom([w], name);
    var u := UpperStr("  ");
    assert |u| == 2 && u[0] == ' ' && u[1] == ' ';
    assert u == "  ";
  }

  /** The first piece of a split is a prefix of the string. */
  lemma SplitFirstPiece(t: string, c: char)
    ensures var p := Split(t, [c])[0]; |p| <= |t| && p == t[..|p|]
  {
    match IndexOf(t, [c], 0)
    case None =>
    case Some(k) =>
  }

  /** `getInitials` with the fallback taken from the trimmed name. */
  function InitialsOfTrimmed(name: string): (r: string)
    ensures |r| <= 2
    ensures Trim(name) != [] ==> r != [] && r[0] == Upper(Trim(name)[0])
    ensures Trim(name) == [] ==> r == []
  {
    InitialsFrom(Words(name), Trim(name))
  }

  /** The corrected initials of an indented single word are those of the word. */
  lemma InitialsOfTrimmedIndentedWord(w: string)
    requires forall j :: 0 <= j < |w| ==> !IsSpace(w[j])
    ensures InitialsOfTrimmed("  " + w) == UpperStr(Prefix(w, 2))
  {
    IndentedWord(w);
    OneWord(w);
  }
}
