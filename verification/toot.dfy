/**
 One toot as the feed shows it (`Toot.compose`): the header fields, the body text
 and one media line for each attachment that carries a description.

 The HTML-to-text conversion and the Markdown rendering are library calls; the
 conversion is a parameter `toText` and the Markdown wrapper is left implicit.
 */
module Toot {

  import opened Wrappers
  import opened TootHead

  /** The `account` record of a toot: only the two fields the header shows. */
  datatype Account = Account(displayName: string, acct: string)

  /** A media attachment; a missing description is `None`. */
  datatype Attachment = Attachment(description: Option<string>, url: string)

  /** A toot as fetched from the server, its creation time already parsed. */
  datatype Item = Item(
    account: Account,
    createdAt: Instant,
    content: string,
    mediaAttachments: seq<Attachment>)

  /** The displayed toot: header line, body text, media lines. */
  datatype Rendered = Rendered(
    username: string,
    acct: string,
    age: string,
    body: string,
    media: seq<string>)

  /**
   `if media['description']`: a description that is present and not empty. The two
   falsy values are a missing description and the empty string.
   */
  function HasDescription(a: Attachment): (b: bool)
    ensures !b <==> a.description == None || a.description == Some("")
  {
    a.description.Some? && a.description.value != ""
  }

  /** The text of one media line: the description, then a link to the media. */
  function MediaLine(a: Attachment): (line: string)
    requires HasDescription(a)
    ensures |line| == |a.description.value| + |a.url| + 11
  {
    a.description.value + " [[Link]](" + a.url + ")"
  }

  /**
   A media line can be taken apart again: it starts with the description, ends
   with the URL and a closing parenthesis, and the link text lies between.
   */
  lemma MediaLineParts(a: Attachment)
    requires HasDescription(a)
    ensures var d := a.description.value;
      var line := MediaLine(a);
      && line[..|d|] == d
      && line[|d|..|d| + 10] == " [[Link]]("
      && line[|d| + 10..|line| - 1] == a.url
      && line[|line| - 1] == ')'
  {
  }

  /** The media lines of a toot, one per described attachment, in attachment order. */
  function MediaLines(atts: seq<Attachment>): (lines: seq<string>)
    ensures |lines| <= |atts|
    ensures |lines| == |atts| <==> forall i :: 0 <= i < |atts| ==> HasDescription(atts[i])
    decreases |atts|
  {
    if |atts| == 0 then []
    else
      var first := if HasDescription(atts[0]) then [MediaLine(atts[0])] else [];
      assert forall i :: 1 <= i < |atts| ==> atts[i] == atts[1..][i - 1];
      first + MediaLines(atts[1..])
  }

  /** Composes a toot for display at instant `now`. */
  function Render(item: Item, now: Instant, toText: string -> string): (r: Rendered)
    ensures r.username == item.account.displayName && r.acct == item.account.acct
    ensures ParseLabel(r.age) == Some(AgeOfSeconds(DeltaSeconds(item.createdAt, now)))
    ensures r.body == toText(item.content)
    ensures r.media == MediaLines(item.mediaAttachments)
    ensures |r.media| <= |item.mediaAttachments|
  {
    AgeLabelMeaning(item.createdAt, now);
    Rendered(
      item.account.displayName,
      item.account.acct,
      AgeLabel(item.createdAt, now),
      toText(item.content),
      MediaLines(item.mediaAttachments))
  }

  /** Media lines distribute over concatenation of attachment lists. */
  lemma {:induction false} MediaLinesAppend(a: seq<Attachment>, b: seq<Attachment>)
    ensures MediaLines(a + b) == MediaLines(a) + MediaLines(b)
    decreases |a|
  {
    if |a| == 0 {
      assert a + b == b;
    } else {
      var first := if HasDescription(a[0]) then [MediaLine(a[0])] else [];
      assert (a + b)[0] == a[0];
      assert (a + b)[1..] == a[1..] + b;
      MediaLinesAppend(a[1..], b);
      assert MediaLines(a + b) == first + MediaLines(a[1..] + b);
      assert MediaLines(a) == first + MediaLines(a[1..]);
    }
  }

  lemma MediaLinesSingle(a: Attachment)
    ensures MediaLines([a]) == if HasDescription(a) then [MediaLine(a)] else []
  {
    assert [a][1..] == [];
  }

  /**
   Every described attachment has its line, at the position given by the number of
   described attachments before it.
   */
  lemma MediaLineAt(atts: seq<Attachment>, i: nat)
    requires i < |atts| && HasDescription(atts[i])
    ensures |MediaLines(atts[..i])| < |MediaLines(atts)|
    ensures MediaLines(atts)[|MediaLines(atts[..i])|] == MediaLine(atts[i])
  {
    assert atts == atts[..i] + ([atts[i]] + atts[i + 1..]);
    MediaLinesAppend(atts[..i], [atts[i]] + atts[i + 1..]);
    MediaLinesAppend([atts[i]], atts[i + 1..]);
    MediaLinesSingle(atts[i]);
  }

  /** Described attachments keep their relative order among the media lines. */
  lemma MediaLinesOrder(atts: seq<Attachment>, i: nat, j: nat)
    requires i < j < |atts|
    requires HasDescription(atts[i]) && HasDescription(atts[j])
    ensures |MediaLines(atts[..i])| < |MediaLines(atts[..j])|
  {
    var prefix := atts[..j];
    assert prefix[..i] == atts[..i];
    MediaLineAt(prefix, i);
  }

  /** Every media line comes from a described attachment of the toot. */
  lemma {:induction false} MediaLinesSound(atts: seq<Attachment>, k: nat)
    requires k < |MediaLines(atts)|
    ensures exists i :: 0 <= i < |atts| && HasDescription(atts[i]) && MediaLines(atts)[k] == MediaLine(atts[i])
    decreases |atts|
  {
    assert atts == [atts[0]] + atts[1..];
    MediaLinesAppend([atts[0]], atts[1..]);
    MediaLinesSingle(atts[0]);
    if HasDescription(atts[0]) && k == 0 {
      assert MediaLines(atts)[k] == MediaLine(atts[0]);
    } else {
      var k' := if HasDescription(atts[0]) then k - 1 else k;
      assert MediaLines(atts)[k] == MediaLines(atts[1..])[k'];
      MediaLinesSound(atts[1..], k');
      var i' :| 0 <= i' < |atts[1..]| && HasDescription(atts[1..][i'])
        && MediaLines(atts[1..])[k'] == MediaLine(atts[1..][i']);
      assert atts[i' + 1] == atts[1..][i'];
    }
  }

  /** An attachment without a description contributes nothing, wherever it stands. */
  lemma UndescribedContributesNothing(before: seq<Attachment>, a: Attachment, after: seq<Attachment>)
    requires !HasDescription(a)
    ensures MediaLines(before + [a] + after) == MediaLines(before + after)
  {
    MediaLinesAppend(before + [a], after);
    MediaLinesAppend(before, [a]);
    MediaLinesSingle(a);
    MediaLinesAppend(before, after);
  }

  /** A described attachment renders as its description followed by a double-bracketed link. */
  lemma MediaLineExample()
    ensures MediaLine(Attachment(Some("cat"), "http://x/1")) == "cat [[Link]](http://x/1)"
  {
  }

  /** Of a described, an empty-described and an undescribed attachment, only the first shows. */
  lemma MediaLinesExample(a: Attachment, b: Attachment, c: Attachment)
    requires a.description == Some("cat") && b.description == Some("") && c.description == None
    ensures MediaLines([a, b, c]) == [MediaLine(a)]
  {
    assert [a, b, c] == [a] + ([b] + [c]);
    MediaLinesAppend([a], [b] + [c]);
    MediaLinesAppend([b], [c]);
    MediaLinesSingle(a);
    MediaLinesSingle(b);
    MediaLinesSingle(c);
  }

  /**
   A toot rendered at two instants differs at most in its age label: the header
   names, the body and the media lines depend on the toot alone.
   */
  lemma RenderDependsOnNowOnlyThroughAge(item: Item, now1: Instant, now2: Instant, toText: string -> string)
    ensures Render(item, now1, toText).(age := "") == Render(item, now2, toText).(age := "")
    ensures AgeLabel(item.createdAt, now1) == AgeLabel(item.createdAt, now2)
      ==> Render(item, now1, toText) == Render(item, now2, toText)
  {
  }
}
