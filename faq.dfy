/** The FAQ section: an accordion with at most one open item, and answers
    that may embed a link written as `[RSVP_LINK]text[/RSVP_LINK]`. */
module Faq {
  import opened Wrappers
  import opened Text

  // ----- accordion -----

  /** The item shown open: `openIndex === index`. */
  predicate IsOpen(openIndex: Option<nat>, index: nat) {
    openIndex == Some(index)
  }

  /** `toggleItem(index)`: closes the item when it is open, otherwise opens
      it, closing whichever other item was open. */
  function Toggled(openIndex: Option<nat>, index: nat): (r: Option<nat>)
    ensures IsOpen(openIndex, index) ==> r == None
    ensures !IsOpen(openIndex, index) ==> IsOpen(r, index)
    ensures forall j :: j != index ==> !IsOpen(r, j)
  {
    if openIndex == Some(index) then None else Some(index)
  }

  /** At most one item is open, whatever the state. */
  lemma AtMostOneOpen(openIndex: Option<nat>, i: nat, j: nat)
    requires IsOpen(openIndex, i) && IsOpen(openIndex, j)
    ensures i == j
  {
  }

  /** Toggling the same item twice from the all-closed state closes it again. */
  lemma ToggleTwiceFromClosed(index: nat)
    ensures Toggled(Toggled(None, index), index) == None
  {
  }

  class Accordion {
    var openIndex: Option<nat>

    constructor ()
      ensures openIndex == None
    {
      openIndex := None;
    }

    method ToggleItem(index: nat)
      modifies this
      ensures openIndex == Toggled(old(openIndex), index)
    {
      if openIndex == Some(index) {
        openIndex := None;
      } else {
        openIndex := Some(index);
      }
    }
  }

  // ----- answers with a link -----

  const OpenMarker := "[RSVP_LINK]"
  const CloseMarker := "[/RSVP_LINK]"

  /** No character of `s` ends a line, so `.` matches all of it. */
  predicate NoLineTerminator(s: string) {
    forall k :: 0 <= k < |s| ==> !IsLineTerminator(s[k])
  }

  /** `answer.match(/\[RSVP_LINK\](.*?)\[\/RSVP_LINK\]/)?.[1]`, searching
      from the opening marker at or after `from`: the text up to the first
      closing marker after it, unless a line terminator comes first, in which
      case the match starts at a later opening marker. */
  function LinkText(answer: string, from: nat): (r: Option<string>)
    ensures r.Some? ==> NoLineTerminator(r.value)
    ensures r.Some? ==> CloseMarker !in Substrings(r.value)
    decreases |answer| - from
  {
    match IndexOf(answer, OpenMarker, from)
    case None => None
    case Some(i) =>
      var start := i + |OpenMarker|;
      match IndexOf(answer, CloseMarker, start)
      case None => None
      case Some(j) =>
        var inner := answer[start..j];
        if NoLineTerminator(inner) then
          InnerLacksMarker(answer, start, j);
          Some(inner)
        else LinkText(answer, i + 1)
  }

  /** All contiguous pieces of a string. */
  function Substrings(s: string): set<string> {
    set a, b | 0 <= a <= b <= |s| :: s[a..b]
  }

  /** Between a start and the first closing marker after it there is no
      closing marker. */
  lemma InnerLacksMarker(answer: string, start: nat, j: nat)
    requires IndexOf(answer, CloseMarker, start) == Some(j)
    ensures CloseMarker !in Substrings(answer[start..j])
  {
    var inner := answer[start..j];
    if CloseMarker in Substrings(inner) {
      var a, b :| 0 <= a <= b <= |inner| && inner[a..b] == CloseMarker;
      assert answer[start + a..start + a + |CloseMarker|] == CloseMarker;
      assert OccursAt(answer, CloseMarker, start + a);
    }
  }

  /** How an answer is rendered: verbatim, or as the text before the first
      opening marker, the link, and the text after the first closing marker
      (each `undefined`, shown as nothing, when missing). */
  datatype Rendered =
    | Verbatim(text: string)
    | WithLink(before: string, link: Option<string>, after: Option<string>)

  function RenderAnswer(answer: string): (r: Rendered)
    ensures r.Verbatim? <==> IndexOf(answer, OpenMarker, 0).None?
    ensures r.Verbatim? ==> r.text == answer
    ensures r.WithLink? ==> r.before == answer[..IndexOf(answer, OpenMarker, 0).value]
  {
    if IndexOf(answer, OpenMarker, 0).None? then Verbatim(answer)
    else
      var afterPieces := Split(answer, CloseMarker);
      WithLink(
        Split(answer, OpenMarker)[0],
        LinkText(answer, 0),
        if |afterPieces| >= 2 then Some(afterPieces[1]) else None)
  }

  /** Where no '[' is, neither marker occurs. */
  lemma NoBracketNoMarker(s: string, pat: string, lo: nat, hi: nat)
    requires pat == OpenMarker || pat == CloseMarker
    requires hi <= |s|
    requires forall k :: lo <= k < hi ==> s[k] != '['
    ensures forall k :: lo <= k < hi ==> !OccursAt(s, pat, k)
  {
    forall k | lo <= k < hi ensures !OccursAt(s, pat, k) {
      NotAtOtherFirstChar(s, pat, k);
    }
  }

  /** The answer `pre[RSVP_LINK]link[/RSVP_LINK]post`. */
  function LinkedAnswer(pre: string, link: string, post: string): string {
    pre + OpenMarker + link + CloseMarker + post
  }

  /** Its first opening marker is the one after `pre`. */
  lemma LinkedAnswerOpen(pre: string, link: string, post: string)
    requires '[' !in pre
    ensures IndexOf(LinkedAnswer(pre, link, post), OpenMarker, 0) == Some(|pre|)
    ensures Split(LinkedAnswer(pre, link, post), OpenMarker)[0] == pre
  {
    var answer := LinkedAnswer(pre, link, post);
    assert answer[|pre|..|pre| + |OpenMarker|] == OpenMarker;
    assert forall k :: 0 <= k < |pre| ==> answer[k] == pre[k];
    NoBracketNoMarker(answer, OpenMarker, 0, |pre|);
    IndexOfIs(answer, OpenMarker, 0, |pre|);
    assert answer[..|pre|] == pre;
  }

  /** Its link text is `link`. */
  lemma LinkedAnswerLink(pre: string, link: string, post: string)
    requires '[' !in pre && '[' !in link
    requires NoLineTerminator(link)
    ensures LinkText(LinkedAnswer(pre, link, post), 0) == Some(link)
  {
    var answer := LinkedAnswer(pre, link, post);
    var start := |pre| + |OpenMarker|;
    var close := start + |link|;
    LinkedAnswerOpen(pre, link, post);
    assert answer[start..close] == link;
    assert answer[close..close + |CloseMarker|] == CloseMarker;
    assert forall k :: start <= k < close ==> answer[k] == link[k - start];
    NoBracketNoMarker(answer, CloseMarker, start, close);
    IndexOfIs(answer, CloseMarker, start, close);
  }

  /** No closing marker starts inside `pre` or at the opening marker. */
  lemma NoCloseInPre(pre: string, link: string, post: string)
    requires '[' !in pre
    ensures forall k :: 0 <= k <= |pre| ==> !OccursAt(LinkedAnswer(pre, link, post), CloseMarker, k)
  {
    var answer := LinkedAnswer(pre, link, post);
    assert forall k :: 0 <= k < |pre| ==> answer[k] == pre[k];
    NoBracketNoMarker(answer, CloseMarker, 0, |pre|);
    assert answer[|pre| + 1] == 'R';
  }

  /** No closing marker starts inside the opening marker or the link. */
  lemma NoCloseInLink(pre: string, link: string, post: string)
    requires '[' !in link
    ensures forall k :: |pre| < k < |pre| + |OpenMarker| + |link| ==>
      !OccursAt(LinkedAnswer(pre, link, post), CloseMarker, k)
  {
    var answer := LinkedAnswer(pre, link, post);
    var start := |pre| + |OpenMarker|;
    assert forall k :: |pre| < k < start ==> answer[k] == OpenMarker[k - |pre|];
    assert forall k :: start <= k < start + |link| ==> answer[k] == link[k - start];
    NoBracketNoMarker(answer, CloseMarker, |pre| + 1, start + |link|);
  }

  /** Its first closing marker is the one after `link`. */
  lemma LinkedAnswerClose(pre: string, link: string, post: string)
    requires '[' !in pre && '[' !in link
    ensures IndexOf(LinkedAnswer(pre, link, post), CloseMarker, 0)
      == Some(|pre| + |OpenMarker| + |link|)
  {
    var answer := LinkedAnswer(pre, link, post);
    var close := |pre| + |OpenMarker| + |link|;
    assert answer[close..close + |CloseMarker|] == CloseMarker;
    NoCloseInPre(pre, link, post);
    NoCloseInLink(pre, link, post);
    IndexOfIs(answer, CloseMarker, 0, close);
  }

  /** The piece after its first closing marker is `post`. */
  lemma LinkedAnswerAfter(pre: string, link: string, post: string)
    requires '[' !in pre && '[' !in link && '[' !in post
    ensures var pieces := Split(LinkedAnswer(pre, link, post), CloseMarker);
      |pieces| >= 2 && pieces[1] == post
  {
    var answer := LinkedAnswer(pre, link, post);
    var end := |pre| + |OpenMarker| + |link| + |CloseMarker|;
    LinkedAnswerClose(pre, link, post);
    assert answer[end..] == post;
    NoBracketNoMarker(post, CloseMarker, 0, |post|);
    assert Split(post, CloseMarker) == [post];
  }

  /** An answer written `pre[RSVP_LINK]link[/RSVP_LINK]post`, with no '[' in
      the three texts and no line break in the link, renders as those three
      texts around the link. */
  lemma RenderLinkedAnswer(pre: string, link: string, post: string)
    requires '[' !in pre && '[' !in link && '[' !in post
    requires NoLineTerminator(link)
    ensures RenderAnswer(LinkedAnswer(pre, link, post)) == WithLink(pre, Some(link), Some(post))
  {
    LinkedAnswerOpen(pre, link, post);
    LinkedAnswerLink(pre, link, post);
    LinkedAnswerAfter(pre, link, post);
  }

  /** An answer without the opening marker is rendered verbatim. */
  lemma RenderPlainAnswer(answer: string)
    requires '[' !in answer
    ensures RenderAnswer(answer) == Verbatim(answer)
  {
    NoBracketNoMarker(answer, OpenMarker, 0, |answer|);
  }
}
