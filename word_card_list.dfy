/**
 * What a word card shows (src/pages/FlashcardsPage/WordCardList.tsx): the
 * meaning with its markup removed and cut to a short snippet, and a badge per
 * known tag id.
 */
module WordCardList {
  import opened Wrappers
  import opened Types
  import opened Seqs

  // ---------------------------------------------------------------------
  // Removing markup: `content.replace(/<[^>]+>/g, '')`

  /** The first `>` at or after `from`. */
  function FirstGt(s: string, from: nat): (k: nat)
    requires from <= |s| && '>' in s[from..]
    ensures from <= k < |s| && s[k] == '>'
    ensures forall j :: from <= j < k ==> s[j] != '>'
    decreases |s| - from
  {
    if s[from] == '>' then from
    else
      assert s[from..] == [s[from]] + s[from + 1..];
      FirstGt(s, from + 1)
  }

  /**
   * The pattern `<[^>]+>` matches at `i`: a `<`, at least one character that
   * is not `>`, then a `>`.
   */
  predicate TagAt(s: string, i: nat)
  {
    i + 1 < |s| && s[i] == '<' && s[i + 1] != '>' && '>' in s[i + 2..]
  }

  /** Scanning left to right, each match (up to its first `>`) is dropped; every other character is kept. */
  function StripTags(s: string): (r: string)
    ensures |r| <= |s|
    decreases |s|
  {
    if s == [] then []
    else if TagAt(s, 0) then StripTags(s[FirstGt(s, 2) + 1..])
    else [s[0]] + StripTags(s[1..])
  }

  /** Stripping never introduces a character. */
  lemma {:induction false} StripTagsAddsNoChar(s: string, c: char)
    requires c !in s
    ensures c !in StripTags(s)
    decreases |s|
  {
    if s == [] {
    } else if TagAt(s, 0) {
      var k := FirstGt(s, 2) + 1;
      assert forall j :: 0 <= j < |s[k..]| ==> s[k..][j] == s[k + j];
      StripTagsAddsNoChar(s[k..], c);
    } else {
      assert forall j :: 0 <= j < |s[1..]| ==> s[1..][j] == s[1 + j];
      StripTagsAddsNoChar(s[1..], c);
    }
  }

  /** No match of the pattern is left in the stripped text. */
  lemma {:induction false} StripTagsLeavesNoTag(s: string)
    ensures forall i :: !TagAt(StripTags(s), i)
    decreases |s|
  {
    if s == [] {
    } else if TagAt(s, 0) {
      StripTagsLeavesNoTag(s[FirstGt(s, 2) + 1..]);
    } else {
      var rest := StripTags(s[1..]);
      var r := StripTags(s);
      assert r == [s[0]] + rest;
      StripTagsLeavesNoTag(s[1..]);
      forall i: nat | i < |r| ensures !TagAt(r, i) {
        if i > 0 {
          assert r[i..] == rest[i - 1..];
          assert TagAt(r, i) == TagAt(rest, i - 1);
        } else if s[0] == '<' && |s| >= 2 {
          if s[1] == '>' {
            assert rest[0] == '>';
          } else {
            // the pattern fails at 0 only because no '>' follows
            assert '>' !in s[2..];
            if |s| >= 3 {
              assert s[1..][2..] == s[2..][1..];
            }
            assert rest == [s[1]] + StripTags(s[2..]);
            StripTagsAddsNoChar(s[2..], '>');
            assert r[2..] == StripTags(s[2..]);
          }
        }
      }
    }
  }

  /** Text without a match is left as it is. */
  lemma {:induction false} StripTagsFixesTagless(s: string)
    requires forall i :: !TagAt(s, i)
    ensures StripTags(s) == s
    decreases |s|
  {
    if s != [] {
      assert !TagAt(s, 0);
      forall i: nat ensures !TagAt(s[1..], i) {
        assert !TagAt(s, i + 1);
      }
      StripTagsFixesTagless(s[1..]);
    }
  }

  /** Stripping twice is stripping once. */
  lemma StripTagsIdempotent(s: string)
    ensures StripTags(StripTags(s)) == StripTags(s)
  {
    StripTagsLeavesNoTag(s);
    StripTagsFixesTagless(StripTags(s));
  }

  /** Plain text (no `<` at all) is shown as it is. */
  lemma StripTagsPlainText(s: string)
    requires '<' !in s
    ensures StripTags(s) == s
  {
    StripTagsFixesTagless(s);
  }

  /** A complete tag at the front (`<`, then at least one character other than `>`, then `>`) is dropped whole. */
  lemma StripTagsDropsTag(t: string, rest: string)
    requires |t| >= 3 && t[0] == '<' && t[|t| - 1] == '>'
    requires forall j :: 1 <= j < |t| - 1 ==> t[j] != '>'
    ensures StripTags(t + rest) == StripTags(rest)
  {
    var s := t + rest;
    assert s[|t| - 1] == '>' && s[2..][|t| - 3] == '>';
    assert TagAt(s, 0);
    assert FirstGt(s, 2) == |t| - 1 by {
      FirstGtAt(s, 2, |t| - 1);
    }
    assert s[|t|..] == rest;
  }

  /** The first `>` from `from` is at `k` when `s[k]` is one and nothing between is. */
  lemma {:induction false} FirstGtAt(s: string, from: nat, k: nat)
    requires from <= k < |s| && s[k] == '>'
    requires forall j :: from <= j < k ==> s[j] != '>'
    ensures '>' in s[from..] && FirstGt(s, from) == k
    decreases k - from
  {
    assert s[from..][k - from] == '>';
    if from < k {
      FirstGtAt(s, from + 1, k);
    }
  }

  /** Text without a `<` at the front is kept as it is. */
  lemma {:induction false} StripTagsKeepsText(text: string, rest: string)
    requires '<' !in text
    ensures StripTags(text + rest) == text + StripTags(rest)
  {
    if text != [] {
      var s := text + rest;
      assert s[0] == text[0] && !TagAt(s, 0);
      assert s[1..] == text[1..] + rest;
      assert '<' !in text[1..] by {
        assert forall c :: c in text[1..] ==> c in text;
      }
      StripTagsKeepsText(text[1..], rest);
      assert StripTags(s) == [s[0]] + StripTags(s[1..]);
      assert text == [text[0]] + text[1..];
    } else {
      assert text + rest == rest;
    }
  }

  // ---------------------------------------------------------------------
  // Truncation

  /** truncateContent: the stripped text, cut to `maxLength` characters followed by `...` when longer. */
  function TruncateContent(content: string, maxLength: nat := 20): (r: string)
    ensures |StripTags(content)| <= maxLength ==> r == StripTags(content)
    ensures |StripTags(content)| > maxLength ==>
      |r| == maxLength + 3 && r == StripTags(content)[..maxLength] + "..."
  {
    var strippedContent := StripTags(content);
    if |strippedContent| <= maxLength then strippedContent
    else strippedContent[..maxLength] + "..."
  }

  /**
   * A snippet is never longer than the limit plus the ellipsis, and never
   * holds markup. Text within the limit is shown whole; longer text is cut to
   * exactly the limit, and its first characters are kept, followed by `...`.
   */
  lemma TruncateContentBounds(content: string, maxLength: nat)
    ensures |StripTags(content)| <= maxLength ==> TruncateContent(content, maxLength) == StripTags(content)
    ensures |StripTags(content)| > maxLength ==>
      var r := TruncateContent(content, maxLength);
      |r| == maxLength + 3 && r[..maxLength] == StripTags(content)[..maxLength] && r[maxLength..] == "..."
    ensures |TruncateContent(content, maxLength)| <= maxLength + 3
    ensures |TruncateContent(content, maxLength)| <= |StripTags(content)| + 3
    ensures forall i :: !TagAt(TruncateContent(content, maxLength), i)
  {
    var st := StripTags(content);
    var r := TruncateContent(content, maxLength);
    StripTagsLeavesNoTag(content);
    if |st| > maxLength {
      forall i: nat | i < |r| ensures !TagAt(r, i) {
        if i + 2 <= maxLength {
          assert r[i + 2..] == st[i + 2..maxLength] + "...";
          assert '>' in st[i + 2..maxLength] ==> '>' in st[i + 2..];
          assert !TagAt(st, i);
        } else if i + 1 == maxLength {
          assert r[i + 1] == '.';
        } else {
          assert r[i] == '.';
        }
      }
    }
  }

  /**
   * A meaning made of a plain paragraph then a bold one, the shape the
   * editor produces (`<p>りんご</p><p><strong>果物の一種</strong></p>`): the
   * card's snippet is both texts run together when they are short.
   */
  lemma PlainThenBold(a: string, b: string)
    requires '<' !in a && '<' !in b && |a| + |b| <= 20
    ensures TruncateContent("<p>" + (a + ("</p>" + ("<p>" + ("<strong>" + (b + ("</strong>" + "</p>"))))))) == a + b
  {
    BoldParagraph(b);
    PlainParagraph(a, "<p>" + ("<strong>" + (b + ("</strong>" + "</p>"))));
  }

  /** `<p>a</p>` followed by more markup: the paragraph's text, then the rest stripped. */
  lemma PlainParagraph(a: string, rest: string)
    requires '<' !in a
    ensures StripTags("<p>" + (a + ("</p>" + rest))) == a + StripTags(rest)
  {
    StripTagsDropsTag("</p>", rest);
    StripTagsKeepsText(a, "</p>" + rest);
    StripTagsDropsTag("<p>", a + ("</p>" + rest));
  }

  /** `<p><strong>b</strong></p>`: just the text. */
  lemma BoldParagraph(b: string)
    requires '<' !in b
    ensures StripTags("<p>" + ("<strong>" + (b + ("</strong>" + "</p>")))) == b
  {
    StripTagsDropsTag("</p>", "");
    assert "</p>" + "" == "</p>";
    StripTagsDropsTag("</strong>", "</p>");
    StripTagsKeepsText(b, "</strong>" + "</p>");
    StripTagsDropsTag("<strong>", b + ("</strong>" + "</p>"));
    StripTagsDropsTag("<p>", "<strong>" + (b + ("</strong>" + "</p>")));
  }

  // ---------------------------------------------------------------------
  // Tag badges

  /** `word.tagIds.map(tagId => tags.find(t => t.id === tagId))`, skipping ids with no tag. */
  function TagBadges(tagIds: seq<int>, tags: seq<Tag>): (badges: seq<Tag>)
    ensures |badges| <= |tagIds|
    ensures forall b :: 0 <= b < |badges| ==> badges[b] in tags
  {
    if tagIds == [] then []
    else
      var found := Find(tags, TagIdIs(tagIds[0]));
      (if found.Some? then [found.value] else []) + TagBadges(tagIds[1..], tags)
  }

  /** When every id names a tag, there is one badge per id, in order, each showing the first tag with that id. */
  lemma {:induction false} TagBadgesAllKnown(tagIds: seq<int>, tags: seq<Tag>)
    requires forall i :: 0 <= i < |tagIds| ==> Find(tags, TagIdIs(tagIds[i])).Some?
    ensures |TagBadges(tagIds, tags)| == |tagIds|
    ensures forall i :: 0 <= i < |tagIds| ==>
      TagBadges(tagIds, tags)[i] == Find(tags, TagIdIs(tagIds[i])).value && TagBadges(tagIds, tags)[i].id == tagIds[i]
  {
    if tagIds != [] {
      var found := Find(tags, TagIdIs(tagIds[0]));
      assert TagIdIs(tagIds[0])(found.value);
      var rest := TagBadges(tagIds[1..], tags);
      assert TagBadges(tagIds, tags) == [found.value] + rest;
      assert forall i :: 1 <= i < |tagIds| ==> tagIds[i] == tagIds[1..][i - 1];
      TagBadgesAllKnown(tagIds[1..], tags);
    }
  }

  /** An id that names no tag gets no badge, wherever it sits among the word's tag ids. */
  lemma {:induction false} TagBadgesSkipUnknown(pre: seq<int>, post: seq<int>, tags: seq<Tag>, id: int)
    requires forall t :: 0 <= t < |tags| ==> tags[t].id != id
    ensures TagBadges(pre + [id] + post, tags) == TagBadges(pre + post, tags)
  {
    if pre == [] {
      assert pre + [id] + post == [id] + post && pre + post == post;
      assert ([id] + post)[1..] == post;
      assert Find(tags, TagIdIs(id)).None?;
      assert TagBadges([id] + post, tags) == [] + TagBadges(post, tags);
    } else {
      assert (pre + [id] + post)[0] == (pre + post)[0] == pre[0];
      assert (pre + [id] + post)[1..] == pre[1..] + [id] + post;
      assert (pre + post)[1..] == pre[1..] + post;
      TagBadgesSkipUnknown(pre[1..], post, tags, id);
    }
  }
}
