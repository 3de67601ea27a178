/** The photo-sharing section: the couple's names made into a file name, the
    event hashtags, the text and links for sharing on social networks, and
    the "copied" flags of its copy buttons. */
module SnapShare {
  import opened Wrappers
  import opened Text

  // ----- names and file names -----

  /** `name.replace(/\s+/g, "")`: every whitespace character removed. */
  function StripWhitespace(s: string): (r: string)
    ensures forall i :: 0 <= i < |r| ==> !IsSpace(r[i])
    ensures |r| <= |s|
  {
    if s == [] then []
    else
      (if IsSpace(s[0]) then [] else [s[0]]) + StripWhitespace(s[1..])
  }

  /** Nothing but whitespace is lost: every other character occurs in the
      result as often as in the name. */
  lemma {:induction false} StripWhitespaceCounts(s: string)
    ensures forall c :: !IsSpace(c) ==> multiset(StripWhitespace(s))[c] == multiset(s)[c]
    decreases |s|
  {
    if s != [] {
      StripWhitespaceCounts(s[1..]);
      assert s == [s[0]] + s[1..];
    }
  }

  /** Stripping works piece by piece: the kept characters of a
      concatenation are those of each part, in their original order. */
  lemma {:induction false} StripWhitespaceAppend(a: string, b: string)
    ensures StripWhitespace(a + b) == StripWhitespace(a) + StripWhitespace(b)
    decreases |a|
  {
    if a == [] {
      assert a + b == b;
    } else {
      var head := if IsSpace(a[0]) then [] else [a[0]];
      assert (a + b)[0] == a[0] && (a + b)[1..] == a[1..] + b;
      assert StripWhitespace(a + b) == head + StripWhitespace(a[1..] + b);
      assert StripWhitespace(a) == head + StripWhitespace(a[1..]);
      StripWhitespaceAppend(a[1..], b);
      var x, y := StripWhitespace(a[1..]), StripWhitespace(b);
      assert head + (x + y) == (head + x) + y;
    }
  }

  /** One character: whitespace disappears, anything else stays. */
  lemma StripWhitespaceChar(c: char)
    ensures StripWhitespace([c]) == if IsSpace(c) then [] else [c]
  {
    assert [c][1..] == [];
  }

  /** A name without whitespace is kept as it is. */
  lemma {:induction false} StripWhitespaceKeeps(s: string)
    requires forall i :: 0 <= i < |s| ==> !IsSpace(s[i])
    ensures StripWhitespace(s) == s
  {
    if s != [] {
      StripWhitespaceKeeps(s[1..]);
    }
  }

  /** Removing the whitespace twice is removing it once. */
  lemma StripWhitespaceIdempotent(s: string)
    ensures StripWhitespace(StripWhitespace(s)) == StripWhitespace(s)
  {
    StripWhitespaceKeeps(StripWhitespace(s));
  }

  const QrSuffix := "-wedding-qr.png"

  /** No whitespace and no upper-case letter. */
  predicate Clean(s: string) {
    forall i :: 0 <= i < |s| ==> !IsSpace(s[i]) && !IsUpperLetter(s[i])
  }

  /** Helper for QrFileName: cleanliness survives concatenation. */
  lemma CleanAppend(a: string, b: string)
    requires Clean(a) && Clean(b)
    ensures Clean(a + b)
  {
    assert forall i :: |a| <= i < |a + b| ==> (a + b)[i] == b[i - |a|];
  }

  /** A lower-cased name without whitespace is clean. */
  lemma LoweredStrippedClean(name: string)
    ensures Clean(LowerStr(StripWhitespace(name)))
  {
  }

  /** Helper for QrFileName: the fixed separator and suffix are clean. */
  lemma SuffixClean()
    ensures Clean("-") && Clean(QrSuffix)
  {
  }

  /** The file name of the downloaded wedding QR code: neither whitespace nor
      upper-case letters, and the fixed suffix at the end. */
  function QrFileName(groomNickname: string, brideNickname: string): (name: string)
    ensures Clean(name)
    ensures |name| > |QrSuffix| && name[|name| - |QrSuffix|..] == QrSuffix
  {
    var groom := LowerStr(StripWhitespace(groomNickname));
    var bride := LowerStr(StripWhitespace(brideNickname));
    LoweredStrippedClean(groomNickname);
    LoweredStrippedClean(brideNickname);
    SuffixClean();
    CleanAppend(groom, "-");
    CleanAppend(groom + "-", bride);
    CleanAppend(groom + "-" + bride, QrSuffix);
    groom + "-" + bride + QrSuffix
  }

  /** Helper for QrFileNameReadBack: the file name is the join on "-" of
      the two names and the pieces of the suffix. */
  lemma JoinQrPieces(groom: string, bride: string)
    ensures Join([groom, bride, "wedding", "qr.png"], "-") == groom + "-" + bride + QrSuffix
  {
    var parts := [groom, bride, "wedding", "qr.png"];
    JoinCons("wedding", ["qr.png"], "-");
    assert ["wedding"] + ["qr.png"] == parts[2..];
    JoinCons(bride, parts[2..], "-");
    assert [bride] + parts[2..] == parts[1..];
    JoinCons(groom, parts[1..], "-");
    assert [groom] + parts[1..] == parts;
  }

  /** The wedding QR file name reads back as the two sanitised nicknames,
      in order, followed by the pieces of the fixed suffix, provided the
      nicknames hold no "-" of their own. */
  lemma QrFileNameReadBack(groomNickname: string, brideNickname: string)
    requires '-' !in LowerStr(StripWhitespace(groomNickname))
    requires '-' !in LowerStr(StripWhitespace(brideNickname))
    ensures Split(QrFileName(groomNickname, brideNickname), "-")
      == [LowerStr(StripWhitespace(groomNickname)), LowerStr(StripWhitespace(brideNickname)), "wedding", "qr.png"]
  {
    var groom := LowerStr(StripWhitespace(groomNickname));
    var bride := LowerStr(StripWhitespace(brideNickname));
    var parts := [groom, bride, "wedding", "qr.png"];
    JoinQrPieces(groom, bride);
    assert QrFileName(groomNickname, brideNickname) == Join(parts, "-");
    SplitJoin(parts, '-');
  }

  /** The file name of the downloaded drive QR code. */
  const DriveQrFileName := "drive-qr.png"

  // ----- hashtags and share text -----

  const Hashtags: seq<string> := ["#MAEgicalmomentwithDANIEL"]

  /** `hashtags.join(" ")`. */
  function HashtagsText(tags: seq<string>): (text: string)
    ensures tags == [] ==> text == ""
    ensures |tags| == 1 ==> text == tags[0]
    ensures |tags| >= 1 ==> |text| >= |tags[0]| && text[..|tags[0]|] == tags[0]
  {
    Join(tags, " ")
  }

  /** Hashtags without spaces can be read back from the joined text. */
  lemma HashtagsTextSplits(tags: seq<string>)
    requires |tags| >= 1
    requires forall i :: 0 <= i < |tags| ==> ' ' !in tags[i]
    ensures Split(HashtagsText(tags), " ") == tags
  {
    SplitJoin(tags, ' ');
  }

  /** With the single hashtag of the site the text is that hashtag. */
  lemma AllHashtagsText()
    ensures HashtagsText(Hashtags) == Hashtags[0]
  {
  }

  /** `window.location.href`, or the fallback during server rendering. */
  function WebsiteUrl(href: Option<string>): (url: string)
    ensures href.Some? ==> url == href.value
    ensures href.None? ==> url == "https://example.com"
  {
    href.GetOr("https://example.com")
  }

  /** `siteConfig.snapShare?.googleDriveLink || ""`. */
  function DriveLink(configured: Option<string>): (link: string)
    ensures configured.Some? ==> link == configured.value
    ensures configured.None? ==> link == ""
    ensures link != "" <==> configured.Some? && configured.value != ""
  {
    configured.GetOr("")
  }

  /** The text shared on social networks: it opens with both nicknames and
      closes with the site's address, the hashtags and a sparkle. */
  function ShareText(groomNickname: string, brideNickname: string, websiteUrl: string, hashtagsText: string): (text: string)
    ensures var opening := "Celebrate " + groomNickname + " & " + brideNickname;
      |text| > |opening| && text[..|opening|] == opening
    ensures var closing := websiteUrl + " " + hashtagsText + " \U{2728}";
      |text| > |closing| && text[|text| - |closing|..] == closing
  {
    "Celebrate " + groomNickname + " & " + brideNickname
      + "'s wedding! Explore the details and share your special memories: "
      + websiteUrl + " " + hashtagsText + " \U{2728}"
  }

  // ----- sharing -----

  datatype Platform = Instagram | Facebook | Twitter | TikTok

  const FacebookPrefix := "https://www.facebook.com/sharer/sharer.php?u="
  const TwitterPrefix := "https://twitter.com/intent/tweet?text="

  /** `shareOnSocial(platform)`: the address of the window it opens.
      `encode` stands for `encodeURIComponent`. */
  function ShareTarget(platform: Platform, encode: string -> string, websiteUrl: string, shareText: string): (target: string)
    ensures target != []
  {
    match platform
    case Instagram => "https://www.instagram.com/"
    case Facebook => FacebookPrefix + encode(websiteUrl)
    case Twitter => TwitterPrefix + encode(shareText)
    case TikTok => "https://www.tiktok.com/"
  }

  /** Instagram and TikTok open their home pages, whatever is shared. */
  lemma HomePageTargets(encode: string -> string, url1: string, text1: string, url2: string, text2: string)
    ensures ShareTarget(Instagram, encode, url1, text1) == ShareTarget(Instagram, encode, url2, text2)
    ensures ShareTarget(TikTok, encode, url1, text1) == ShareTarget(TikTok, encode, url2, text2)
  {
  }

  /** Facebook carries the encoded address and Twitter the encoded text, each
      readable back after its fixed prefix. */
  lemma SharedContent(encode: string -> string, url: string, text: string)
    ensures var f := ShareTarget(Facebook, encode, url, text);
      f[..|FacebookPrefix|] == FacebookPrefix && f[|FacebookPrefix|..] == encode(url)
    ensures var t := ShareTarget(Twitter, encode, url, text);
      t[..|TwitterPrefix|] == TwitterPrefix && t[|TwitterPrefix|..] == encode(text)
  {
  }

  // ----- copy buttons -----

  /** The copy confirmations of the section, and what the clipboard holds. */
  class ShareState {
    const driveLink: string
    const allHashtagsText: string
    var copiedHashtagIndex: Option<int>
    var copiedAllHashtags: bool
    var copiedDriveLink: bool
    var clipboard: string

    constructor (configuredDriveLink: Option<string>)
      ensures driveLink == DriveLink(configuredDriveLink) && allHashtagsText == HashtagsText(Hashtags)
      ensures copiedHashtagIndex == None && !copiedAllHashtags && !copiedDriveLink && clipboard == ""
    {
      driveLink := DriveLink(configuredDriveLink);
      allHashtagsText := HashtagsText(Hashtags);
      copiedHashtagIndex, copiedAllHashtags, copiedDriveLink := None, false, false;
      clipboard := "";
    }

    /** `copyHashtag(hashtag, index)`; `writeOk` says whether the clipboard
        accepted the text. */
    method CopyHashtag(hashtag: string, index: int, writeOk: bool)
      modifies this`copiedHashtagIndex, this`clipboard
      ensures writeOk ==> clipboard == hashtag && copiedHashtagIndex == Some(index)
      ensures !writeOk ==> clipboard == old(clipboard) && copiedHashtagIndex == old(copiedHashtagIndex)
    {
      if writeOk {
        clipboard := hashtag;
        copiedHashtagIndex := Some(index);
      }
    }

    method CopyAllHashtags(writeOk: bool)
      modifies this`copiedAllHashtags, this`clipboard
      ensures writeOk ==> clipboard == allHashtagsText && copiedAllHashtags
      ensures !writeOk ==> clipboard == old(clipboard) && copiedAllHashtags == old(copiedAllHashtags)
    {
      if writeOk {
        clipboard := allHashtagsText;
        copiedAllHashtags := true;
      }
    }

    /** `copyDriveLink`: nothing happens without a configured link. */
    method CopyDriveLink(writeOk: bool)
      modifies this`copiedDriveLink, this`clipboard
      ensures driveLink != "" && writeOk ==> clipboard == driveLink && copiedDriveLink
      ensures driveLink == "" || !writeOk ==>
        clipboard == old(clipboard) && copiedDriveLink == old(copiedDriveLink)
    {
      if driveLink != "" && writeOk {
        clipboard := driveLink;
        copiedDriveLink := true;
      }
    }

    /** The 2000 ms timers after each copy. */
    method ExpireHashtag()
      modifies this`copiedHashtagIndex
      ensures copiedHashtagIndex == None
    {
      copiedHashtagIndex := None;
    }

    method ExpireAllHashtags()
      modifies this`copiedAllHashtags
      ensures !copiedAllHashtags
    {
      copiedAllHashtags := false;
    }

    method ExpireDriveLink()
      modifies this`copiedDriveLink
      ensures !copiedDriveLink
    {
      copiedDriveLink := false;
    }
  }
}
