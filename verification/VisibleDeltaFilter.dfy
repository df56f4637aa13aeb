/** The streaming filter that hides think blocks. Whatever way a text is cut into
    `feed` calls, the visible output is one whole-text removal of the blocks. */
module VisibleText {

  const OPEN_TAG := "<think>"
  const CLOSE_TAG := "</think>"

  function Tag(thinking: bool): (tag: string)
    ensures |tag| > 0
  {
    if thinking then CLOSE_TAG else OPEN_TAG
  }

  /** `lower` maps characters one to one. */
  function Lowered(s: string, lower: char -> char): (t: string)
    ensures |t| == |s|
  {
    seq(|s|, i requires 0 <= i < |s| => lower(s[i]))
  }

  /** The tag stands at i, letter case aside. */
  predicate TagAt(s: string, i: int, tag: string, lower: char -> char) {
    0 <= i && i + |tag| <= |s| && Lowered(s[i..i + |tag|], lower) == tag
  }

  /** `s.lower().find(tag, from)` */
  function Find(s: string, tag: string, lower: char -> char, from: nat): (i: int)
    ensures i >= 0 ==> from <= i && i + |tag| <= |s| && TagAt(s, i, tag, lower)
    ensures forall j :: from <= j && (i < 0 || j < i) ==> !TagAt(s, j, tag, lower)
    decreases |s| - from
  {
    if from > |s| then -1
    else if TagAt(s, from, tag, lower) then from
    else if from == |s| then -1
    else Find(s, tag, lower, from + 1)
  }

  /** The reference: the visible text of s, starting inside a think block or not.
      An unclosed block hides the rest. */
  function Strip(s: string, thinking: bool, lower: char -> char): string
    decreases |s|
  {
    var tag := Tag(thinking);
    var i := Find(s, tag, lower, 0);
    if i >= 0 then (if thinking then "" else s[..i]) + Strip(s[i + |tag|..], !thinking, lower)
    else if thinking then "" else s
  }

  // ----- What is removed ------------------------------------------------------------

  /** The word stands at i, under case folding. */
  predicate StandsAt(text: string, i: int, word: string, lower: char -> char) {
    && 0 <= i && i + |word| <= |text|
    && forall k :: 0 <= k < |word| ==> lower(text[i + k]) == word[k]
  }

  /** A spelling of the word: `<THINK>` spells `<think>`. */
  predicate Spells(text: string, word: string, lower: char -> char) {
    |text| == |word| && StandsAt(text, 0, word, lower)
  }

  predicate Absent(text: string, word: string, lower: char -> char) {
    forall i :: 0 <= i < |text| ==> !StandsAt(text, i, word, lower)
  }

  lemma StandsIsTag(s: string, i: int, tag: string, lower: char -> char)
    ensures TagAt(s, i, tag, lower) <==> StandsAt(s, i, tag, lower)
  {
    if 0 <= i && i + |tag| <= |s| {
      var t := Lowered(s[i..i + |tag|], lower);
      assert forall k :: 0 <= k < |tag| ==> t[k] == lower(s[i + k]);
    }
  }

  lemma StandsIn(head: string, rest: string, i: nat, word: string, lower: char -> char)
    requires i + |word| <= |head|
    ensures StandsAt(head + rest, i, word, lower) <==> StandsAt(head, i, word, lower)
  {
    assert forall k :: i <= k < |head| ==> (head + rest)[k] == head[k];
  }

  /** A word whose first character does not come again cannot start earlier, half
      in the head and half in its own spelling. */
  lemma FirstAtSpelling(head: string, word: string, spelt: string, rest: string, lower: char -> char)
    requires Absent(head, word, lower) && Spells(spelt, word, lower)
    requires |word| > 0 && forall k :: 0 < k < |word| ==> word[k] != word[0]
    ensures Find(head + spelt + rest, word, lower, 0) == |head|
  {
    var s := head + spelt + rest;
    hide Find, TagAt;
    forall i | 0 <= i < |head| ensures !TagAt(s, i, word, lower) {
      StandsIsTag(s, i, word, lower);
      if i + |word| <= |head| {
        StandsIn(head, spelt + rest, i, word, lower);
        assert head + (spelt + rest) == s;
      } else {
        var k := |head| - i;
        assert lower(s[i + k]) == lower(spelt[0 + 0]) == word[0];
        assert lower(s[i + k]) != word[k];
      }
    }
    StandsIsTag(s, |head|, word, lower);
    assert StandsAt(s, |head|, word, lower) by {
      forall k | 0 <= k < |word| ensures lower(s[|head| + k]) == word[k] {
        assert s[|head| + k] == spelt[0 + k];
      }
    }
  }

  lemma NotFound(s: string, word: string, lower: char -> char)
    requires Absent(s, word, lower) && |word| > 0
    ensures Find(s, word, lower, 0) < 0
  {
    StandsIsTag(s, Find(s, word, lower, 0), word, lower);
  }

  /** A text without an opening tag is shown as it is. */
  lemma PlainIsKept(a: string, lower: char -> char)
    requires Absent(a, "<think>", lower)
    ensures Strip(a, false, lower) == a
  {
    NotFound(a, "<think>", lower);
  }

  /** A block that is never closed hides all that follows it. */
  lemma OpenBlockIsHidden(a: string, open: string, b: string, lower: char -> char)
    requires Absent(a, "<think>", lower) && Spells(open, "<think>", lower) && Absent(b, "</think>", lower)
    ensures Strip(a + open + b, false, lower) == a
  {
    FirstAtSpelling(a, "<think>", open, b, lower);
    NotFound(b, "</think>", lower);
    assert (a + open + b)[|a| + 7..] == b;
    assert (a + open + b)[..|a|] == a;
    assert Strip(b, true, lower) == "";
  }

  lemma StripAt(s: string, thinking: bool, lower: char -> char, i: nat)
    requires Find(s, Tag(thinking), lower, 0) == i
    ensures Strip(s, thinking, lower) == (if thinking then "" else s[..i]) + Strip(s[i + |Tag(thinking)|..], !thinking, lower)
  {
  }

  lemma BlockStart(a: string, open: string, t: string, lower: char -> char)
    requires Absent(a, "<think>", lower) && Spells(open, "<think>", lower)
    ensures Strip(a + open + t, false, lower) == a + Strip(t, true, lower)
  {
    FirstAtSpelling(a, "<think>", open, t, lower);
    hide Find, Absent, Spells;
    StripAt(a + open + t, false, lower, |a|);
    assert (a + open + t)[|a| + 7..] == t && (a + open + t)[..|a|] == a;
  }

  lemma BlockEnd(b: string, close: string, rest: string, lower: char -> char)
    requires Absent(b, "</think>", lower) && Spells(close, "</think>", lower)
    ensures Strip(b + close + rest, true, lower) == Strip(rest, false, lower)
  {
    FirstAtSpelling(b, "</think>", close, rest, lower);
    hide Find, Absent, Spells;
    StripAt(b + close + rest, true, lower, |b|);
    assert (b + close + rest)[|b| + 8..] == rest;
  }

  /** A closed block is removed, tags included, and the rest is treated alike. With
      the two laws above, this says what is shown of any text. */
  lemma BlockIsRemoved(a: string, open: string, b: string, close: string, rest: string, lower: char -> char)
    requires Absent(a, "<think>", lower) && Spells(open, "<think>", lower)
    requires Absent(b, "</think>", lower) && Spells(close, "</think>", lower)
    ensures Strip(a + open + b + close + rest, false, lower) == a + Strip(rest, false, lower)
  {
    var s, t := a + open + b + close + rest, b + close + rest;
    assert s == a + open + t;
    hide Strip, Absent, Spells;
    BlockStart(a, open, t, lower);
    BlockEnd(b, close, rest, lower);
  }

  lemma NoTagIn(x: string, word: string, lower: char -> char)
    requires |word| > 0 && forall c :: c in x ==> lower(c) != word[0]
    ensures Absent(x, word, lower)
  {
    forall i | 0 <= i < |x| ensures !StandsAt(x, i, word, lower) {
      assert lower(x[i + 0]) != word[0];
    }
  }

  /** On the literal tags. */
  lemma AnswerAroundThinking(a: string, b: string, c: string, lower: char -> char)
    requires forall x :: x in "</think>" ==> lower(x) == x
    requires forall x :: x in a + b + c ==> lower(x) != '<'
    ensures Strip(a + "<think>" + b + "</think>" + c, false, lower) == a + c
    ensures Strip(a + "<think>" + b, false, lower) == a
  {
    var word := "</think>";
    assert word[0] == '<' && word[1] == '/' && word[2] == 't' && word[3] == 'h' && word[4] == 'i'
      && word[5] == 'n' && word[6] == 'k' && word[7] == '>';
    forall x: string, w: string | x in {a, b, c} && w in {"<think>", "</think>"} ensures Absent(x, w, lower) {
      NoTagIn(x, w, lower);
    }
    BlockIsRemoved(a, "<think>", b, "</think>", c, lower);
    OpenBlockIsHidden(a, "<think>", b, lower);
    PlainIsKept(c, lower);
  }

  // ----- How more text changes a search ------------------------------------------

  lemma TagInPrefix(s: string, rest: string, i: int, tag: string, lower: char -> char)
    requires i + |tag| <= |s|
    ensures TagAt(s + rest, i, tag, lower) <==> TagAt(s, i, tag, lower)
  {
    if 0 <= i {
      assert (s + rest)[i..i + |tag|] == s[i..i + |tag|];
    }
  }

  /** A tag found in the buffer is found there whatever follows. */
  lemma FoundStays(s: string, rest: string, tag: string, lower: char -> char)
    requires Find(s, tag, lower, 0) >= 0
    ensures Find(s + rest, tag, lower, 0) == Find(s, tag, lower, 0)
  {
    var i, j := Find(s, tag, lower, 0), Find(s + rest, tag, lower, 0);
    TagInPrefix(s, rest, i, tag, lower);
    if j < i {
      TagInPrefix(s, rest, j, tag, lower);
    }
  }

  lemma TagShifts(head: string, tail: string, x: int, tag: string, lower: char -> char)
    requires 0 <= x
    ensures TagAt(head + tail, |head| + x, tag, lower) <==> TagAt(tail, x, tag, lower)
  {
    if x + |tag| <= |tail| {
      assert (head + tail)[|head| + x..|head| + x + |tag|] == tail[x..x + |tag|];
    }
  }

  /** A head in which no tag starts only shifts the search. */
  lemma FindShifts(head: string, tail: string, tag: string, lower: char -> char)
    requires forall x :: 0 <= x < |head| ==> !TagAt(head + tail, x, tag, lower)
    ensures var i, j := Find(head + tail, tag, lower, 0), Find(tail, tag, lower, 0);
      (i < 0 <==> j < 0) && (j >= 0 ==> i == |head| + j)
  {
    var i, j := Find(head + tail, tag, lower, 0), Find(tail, tag, lower, 0);
    hide Find, TagAt;
    if i >= 0 {
      TagShifts(head, tail, i - |head|, tag, lower);
    }
    if j >= 0 {
      TagShifts(head, tail, j, tag, lower);
    }
  }

  /** With no tag in the buffer, none starts before its last |tag| - 1 characters. */
  lemma UnfoundHead(s: string, rest: string, tag: string, lower: char -> char, safe: nat)
    requires Find(s, tag, lower, 0) < 0 && safe <= |s| && (safe == 0 || safe + |tag| - 1 <= |s|)
    ensures forall x :: 0 <= x < safe ==> !TagAt(s + rest, x, tag, lower)
  {
    hide Find;
    forall x | 0 <= x < safe ensures !TagAt(s + rest, x, tag, lower) {
      TagInPrefix(s, rest, x, tag, lower);
    }
  }

  lemma StripShifts(s: string, rest: string, thinking: bool, lower: char -> char, safe: nat)
    requires Find(s, Tag(thinking), lower, 0) < 0 && safe <= |s| && (safe == 0 || safe + |Tag(thinking)| - 1 <= |s|)
    ensures Strip(s + rest, thinking, lower)
      == (if thinking then "" else s[..safe]) + Strip(s[safe..] + rest, thinking, lower)
  {
    hide Tag, TagAt, Find;
    var tag, all, tail := Tag(thinking), s + rest, s[safe..] + rest;
    UnfoundHead(s, rest, tag, lower, safe);
    assert all == s[..safe] + tail;
    FindShifts(s[..safe], tail, tag, lower);
    var j := Find(tail, tag, lower, 0);
    if j >= 0 {
      assert all[safe + j + |tag|..] == tail[j + |tag|..];
      assert all[..safe + j] == s[..safe] + tail[..j];
    }
  }

  lemma StripFound(s: string, rest: string, thinking: bool, lower: char -> char)
    requires Find(s, Tag(thinking), lower, 0) >= 0
    ensures var tag := Tag(thinking); var i := Find(s, tag, lower, 0);
      Strip(s + rest, thinking, lower)
        == (if thinking then "" else s[..i]) + Strip(s[i + |tag|..] + rest, !thinking, lower)
  {
    hide Tag, TagAt, Find;
    var tag := Tag(thinking);
    var i := Find(s, tag, lower, 0);
    FoundStays(s, rest, tag, lower);
    assert (s + rest)[..i] == s[..i];
    assert (s + rest)[i + |tag|..] == s[i + |tag|..] + rest;
  }

  lemma StripUnfound(s: string, thinking: bool, lower: char -> char)
    requires Find(s, Tag(thinking), lower, 0) < 0
    ensures Strip(s, thinking, lower) == if thinking then "" else s
  {
  }

  lemma StripNothing(thinking: bool, lower: char -> char)
    ensures Strip("", thinking, lower) == ""
  {
  }

  // ----- The filter -----------------------------------------------------------------

  class VisibleDeltaFilter {
    const lower: char -> char
    var buffer: string
    var thinking: bool
    var visible: string
    ghost var fed: string

    /** What is visible, and what the buffer will still show, is what the whole text
        shows, however the text goes on. */
    ghost predicate Valid()
      reads this
    {
      forall rest: string :: visible + Strip(buffer + rest, thinking, lower) == Strip(fed + rest, false, lower)
    }

    constructor (lower: char -> char)
      ensures Valid() && fed == "" && this.lower == lower
    {
      this.lower := lower;
      buffer, thinking, visible, fed := "", false, "", "";
      new;
      forall rest: string ensures visible + Strip(buffer + rest, thinking, lower) == Strip(fed + rest, false, lower) {
        assert "" + rest == rest;
      }
    }

    method Feed(value: string)
      requires Valid()
      modifies this
      ensures Valid() && fed == old(fed) + value
    {
      hide Strip;
      if value == "" {
        assert fed + value == fed;
        return;
      }
      forall rest: string ensures visible + Strip(buffer + value + rest, thinking, lower) == Strip(fed + value + rest, false, lower) {
        assert buffer + value + rest == buffer + (value + rest) && fed + value + rest == fed + (value + rest);
      }
      buffer, fed := buffer + value, fed + value;
      Drain(false);
    }

    method Finish()
      requires Valid()
      modifies this
      ensures visible == Strip(fed, false, lower) && buffer == "" && fed == old(fed)
    {
      Drain(true);
    }

    method Drain(final: bool)
      requires Valid()
      modifies this
      ensures fed == old(fed)
      ensures if final then visible == Strip(fed, false, lower) && buffer == "" else Valid()
    {
      hide Strip, Tag, Find, TagAt;
      while buffer != ""
        invariant Valid() && fed == old(fed)
        decreases |buffer|
      {
        var tag := Tag(thinking);
        var index := Find(buffer, tag, lower, 0);
        ghost var before, were, shown := buffer, thinking, visible;
        if index >= 0 {
          if !thinking && index > 0 {
            visible := visible + buffer[..index];
          }
          buffer := buffer[index + |tag|..];
          thinking := !thinking;
          forall rest: string ensures visible + Strip(buffer + rest, thinking, lower) == Strip(fed + rest, false, lower) {
            StripFound(before, rest, were, lower);
            assert shown + Strip(before + rest, were, lower) == Strip(fed + rest, false, lower);
          }
        } else if final {
          if !thinking {
            visible := visible + buffer;
          }
          buffer := "";
          assert shown + Strip(before + "", were, lower) == Strip(fed + "", false, lower);
          StripUnfound(before, were, lower);
          assert before + "" == before && fed + "" == fed;
          return;
        } else {
          var keep := if |tag| - 1 < |buffer| then |tag| - 1 else |buffer|;
          var safeLength := |buffer| - keep;
          if safeLength > 0 && !thinking {
            visible := visible + buffer[..safeLength];
          }
          buffer := buffer[safeLength..];
          forall rest: string ensures visible + Strip(buffer + rest, thinking, lower) == Strip(fed + rest, false, lower) {
            StripShifts(before, rest, were, lower, safeLength);
            assert shown + Strip(before + rest, were, lower) == Strip(fed + rest, false, lower);
          }
          return;
        }
      }
      StripNothing(thinking, lower);
      assert visible + Strip(buffer + "", thinking, lower) == Strip(fed + "", false, lower);
      assert fed + "" == fed && buffer + "" == "" && visible + "" == visible;
    }
  }

  function Join(chunks: seq<string>): string {
    if chunks == [] then "" else chunks[0] + Join(chunks[1..])
  }

  lemma JoinNone()
    ensures Join([]) == ""
  {
  }

  lemma {:induction false} JoinAppend(chunks: seq<string>, last: string)
    ensures Join(chunks + [last]) == Join(chunks) + last
  {
    if chunks == [] {
      assert chunks + [last] == [last];
      assert Join([last][1..]) == "";
    } else {
      assert (chunks + [last])[1..] == chunks[1..] + [last];
      JoinAppend(chunks[1..], last);
    }
  }

  /** Chunk independence: the output depends on the text, not on how it was cut. */
  method FilterChunks(chunks: seq<string>, lower: char -> char) returns (visible: string)
    ensures visible == Strip(Join(chunks), false, lower)
  {
    hide Strip, Join;
    var filter := new VisibleDeltaFilter(lower);
    assert chunks[..0] == [];
    JoinNone();
    for i := 0 to |chunks|
      invariant filter.Valid() && fresh(filter) && filter.lower == lower
      invariant filter.fed == Join(chunks[..i])
    {
      filter.Feed(chunks[i]);
      assert chunks[..i + 1] == chunks[..i] + [chunks[i]];
      JoinAppend(chunks[..i], chunks[i]);
    }
    assert chunks[..|chunks|] == chunks;
    filter.Finish();
    visible := filter.visible;
  }
}
