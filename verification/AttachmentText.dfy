/** Attachment ids as texts: what the clean-up keeps of a thread id, and which texts are ids. */
module AttachmentText {
  import opened Optional
  import opened Text
  import opened AttachmentId

  /** ASCII letters, digits and the underscore, by their codes. */
  predicate IsWordCode(n: int) {
    48 <= n <= 57 || 65 <= n <= 90 || 97 <= n <= 122 || n == 95
  }

  predicate IsWord(s: string) {
    s != "" && forall k :: 0 <= k < |s| ==> IsWordCode(s[k] as int)
  }

  // ---- the words of a thread id ----

  /** Every character that belongs to no word is a dash. */
  function Dashed(s: string): string {
    seq(|s|, k requires 0 <= k < |s| => if IsWordCode(s[k] as int) then s[k] else '-')
  }

  function NonEmpty(pieces: seq<string>): seq<string> {
    if pieces == [] then []
    else (if pieces[0] == "" then [] else [pieces[0]]) + NonEmpty(pieces[1..])
  }

  /** The runs of word characters. */
  function Words(s: string): seq<string> {
    NonEmpty(SplitOn(Dashed(s), '-'))
  }

  lemma WordChars(c: char)
    ensures IsWordChar(c) <==> IsWordCode(c as int)
  {
  }

  lemma {:induction false} RunsAreDashed(s: string)
    ensures CollapseDashes(ReplaceRuns(s)) == CollapseDashes(Dashed(s))
    ensures s != "" ==> ReplaceRuns(s) != "" && (ReplaceRuns(s)[0] == '-' <==> Dashed(s)[0] == '-')
  {
    if s != "" {
      WordChars(s[0]);
      RunsAreDashed(s[1..]);
      assert Dashed(s) == [if IsWordCode(s[0] as int) then s[0] else '-'] + Dashed(s[1..]);
      if |s| > 1 {
        WordChars(s[1]);
        CollapsePrepends(Dashed(s)[0], ReplaceRuns(s[1..]), Dashed(s[1..]));
      }
    }
  }

  lemma CollapsePrepends(c: char, a: string, b: string)
    requires a != "" && b != "" && (a[0] == '-' <==> b[0] == '-') && CollapseDashes(a) == CollapseDashes(b)
    ensures CollapseDashes([c] + a) == CollapseDashes([c] + b)
  {
    assert ([c] + a)[1..] == a && ([c] + b)[1..] == b;
  }

  function DropDashes(s: string): string {
    if s != "" && s[0] == '-' then DropDashes(s[1..]) else s
  }

  lemma {:induction false} CollapseOfDashes(s: string)
    ensures CollapseDashes(s) ==
      (if s != "" && s[0] == '-' then "-" else "") + CollapseDashes(DropDashes(s))
    ensures NonEmpty(SplitOn(s, '-')) == NonEmpty(SplitOn(DropDashes(s), '-'))
    ensures DropDashes(s) != "" ==> DropDashes(s)[0] != '-'
    ensures |DropDashes(s)| <= |s|
  {
    if s != "" && s[0] == '-' {
      CollapseOfDashes(s[1..]);
      assert SplitOn(s, '-') == [""] + SplitOn(s[1..], '-');
      assert SplitOn(s, '-')[1..] == SplitOn(s[1..], '-');
    }
  }

  lemma {:induction false} CollapseOfWord(word: string, rest: string)
    requires '-' !in word && (rest == "" || rest[0] == '-')
    ensures CollapseDashes(word + rest) == word + CollapseDashes(rest)
  {
    if word == "" {
      assert word + rest == rest;
    } else {
      assert (word + rest)[1..] == word[1..] + rest;
      CollapseOfWord(word[1..], rest);
    }
  }

  function EndDash(s: string): string {
    if s != "" && s[|s| - 1] == '-' then "-" else ""
  }

  lemma {:induction false} FirstDash(s: string) returns (i: nat)
    ensures i <= |s| && '-' !in s[..i] && (i < |s| ==> s[i] == '-')
  {
    if s == "" || s[0] == '-' {
      i := 0;
    } else {
      var j := FirstDash(s[1..]);
      i := j + 1;
      assert s[..i] == [s[0]] + s[1..][..j];
    }
  }

  /** A text that does not begin with a dash collapses to its words with single dashes between them. */
  lemma {:induction false} CollapseJoins(s: string)
    requires s != "" ==> s[0] != '-'
    ensures CollapseDashes(s) == Join(NonEmpty(SplitOn(s, '-')), '-') + EndDash(s)
    ensures s != "" ==> NonEmpty(SplitOn(s, '-')) != []
    decreases |s|
  {
    hide CollapseDashes, NonEmpty, SplitOn, DropDashes, Join, EndDash;
    var i := FirstDash(s);
    var word := s[..i];
    if i == |s| {
      assert s == word;
      WordCollapses(s);
    } else {
      var after := s[i + 1..];
      assert s == word + ['-'] + after;
      DashCollapses(word, after);
      var rest := DropDashes(after);
      CollapseOfDashes(after);
      CollapseJoins(rest);
      EndOfRest(s, i);
      JoinFirst(word, NonEmpty(SplitOn(rest, '-')));
      NothingJoins();
    }
  }

  lemma NothingJoins()
    ensures Join([], '-') == "" && EndDash("") == "" && CollapseDashes("") == ""
    ensures NonEmpty(SplitOn("", '-')) == []
  {
  }

  lemma WordCollapses(word: string)
    requires '-' !in word
    ensures CollapseDashes(word) == Join(NonEmpty(SplitOn(word, '-')), '-') + EndDash(word)
    ensures word != "" ==> NonEmpty(SplitOn(word, '-')) != []
  {
    assert word + "" == word;
    CollapseOfWord(word, "");
    SplitPrefix(word, "", '-');
    if word != "" {
      assert word[|word| - 1] in word;
    }
  }

  lemma DashCollapses(word: string, after: string)
    requires '-' !in word && word != ""
    ensures var s := word + ['-'] + after;
      && CollapseDashes(s) == word + ("-" + CollapseDashes(DropDashes(after)))
      && NonEmpty(SplitOn(s, '-')) == [word] + NonEmpty(SplitOn(DropDashes(after), '-'))
  {
    var tail := "-" + after;
    assert word + ['-'] + after == word + tail && tail[1..] == after;
    CollapseOfWord(word, tail);
    CollapseOfDashes(tail);
    CollapseOfDashes(after);
    SplitPrefix(word, after, '-');
    assert ([word] + SplitOn(after, '-'))[1..] == SplitOn(after, '-');
  }

  lemma JoinFirst(word: string, words: seq<string>)
    ensures Join([word] + words, '-') == if words == [] then word else word + "-" + Join(words, '-')
  {
    assert ([word] + words)[1..] == words;
  }

  /** Where the text ends in a dash, so does what is left of it, or nothing is. */
  lemma EndOfRest(s: string, i: nat)
    requires i < |s| && s[i] == '-'
    ensures var rest := DropDashes(s[i + 1..]);
      if rest == "" then EndDash(s) == "-" else EndDash(rest) == EndDash(s)
  {
    var after := s[i + 1..];
    var rest := DropDashes(after);
    DropIsSuffix(after);
    hide DropDashes;
    if after == "" {
      assert s[|s| - 1] == s[i];
    } else {
      assert s[|s| - 1] == after[|after| - 1];
      assert rest != "" ==> rest[|rest| - 1] == after[|after| - 1];
    }
  }

  lemma {:induction false} DropIsSuffix(s: string)
    ensures var rest := DropDashes(s);
      && |rest| <= |s| && rest == s[|s| - |rest|..]
      && (rest == "" ==> s == "" || s[|s| - 1] == '-')
  {
    if s != "" && s[0] == '-' {
      DropIsSuffix(s[1..]);
    }
  }

  function Stripped(s: string): string {
    StripEnd(StripStart(s))
  }

  lemma {:induction false} StripStartOfDash(s: string)
    ensures Stripped(s + "-") == Stripped(s)
  {
    if s == "" {
      assert s + "-" == "-" && "-"[1..] == "";
    } else {
      assert (s + "-")[1..] == s[1..] + "-";
      if IsMark(s[0]) {
        StripStartOfDash(s[1..]);
      } else {
        assert (s + "-")[..|s|] == s;
      }
    }
  }

  /** The segment consists of the words of the thread id in lower case, with single dashes between them. */
  lemma SegmentJoinsWords(lower: string -> string, threadId: string)
    ensures var segment := StripEnd(Cut(Stripped(Join(Words(lower(Trim(threadId))), '-')), 80));
      ToSafeThreadAttachmentSegment(lower, threadId) == if segment == "" then None else Some(segment)
  {
    var s := Dashed(lower(Trim(threadId)));
    RunsAreDashed(lower(Trim(threadId)));
    CollapseOfDashes(s);
    var rest := DropDashes(s);
    CollapseJoins(rest);
    var joined := Join(NonEmpty(SplitOn(rest, '-')), '-');
    StripStartOfDash(joined);
    assert joined + "" == joined && "" + (joined + EndDash(rest)) == joined + EndDash(rest);
    assert Stripped(joined + EndDash(rest)) == Stripped(joined);
    assert ("-" + (joined + EndDash(rest)))[1..] == joined + EndDash(rest);
    assert Stripped("-" + (joined + EndDash(rest))) == Stripped(joined + EndDash(rest));
  }

  /** Nothing is cut or stripped from words that begin and end with a letter or digit and are short enough. */
  lemma StrippedStays(s: string)
    requires s != "" ==> !IsMark(s[0]) && !IsMark(s[|s| - 1])
    ensures Stripped(s) == s
  {
  }

  // ---- which texts are ids ----

  /** Hexadecimal digits in groups of 8, 4, 4, 4 and 12. */
  predicate IsUuidText(s: string) {
    && |s| == 36 && s[8] == s[13] == s[18] == s[23] == '-'
    && forall k :: 0 <= k < 36 && k !in {8, 13, 18, 23} ==>
      48 <= s[k] as int <= 57 || 65 <= s[k] as int <= 70 || 97 <= s[k] as int <= 102
  }

  lemma UuidTexts(s: string)
    ensures IsUuid(s) <==> IsUuidText(s)
  {
  }

  /** Words with single dashes between them. */
  predicate IsSegmentText(s: string) {
    forall k :: 0 <= k < |SplitOn(s, '-')| ==> IsWord(SplitOn(s, '-')[k])
  }

  lemma {:induction false} SegmentTexts(s: string)
    ensures MatchesSegmentPattern(s) <==> IsSegmentText(s)
    decreases |s|
  {
    var i := FirstDash(s);
    var word := s[..i];
    SplitPrefix(word, if i < |s| then s[i + 1..] else "", '-');
    forall k | 0 <= k < |s| ensures IsWordChar(s[k]) <==> IsWordCode(s[k] as int) {
      WordChars(s[k]);
    }
    if i == |s| {
      assert s == word && SplitOn(s, '-') == [s];
      assert forall k :: 0 <= k < |s| ==> s[k] in s && s[k] != '-';
      assert IsSegmentText(s) <==> IsWord(SplitOn(s, '-')[0]);
    } else {
      var after := s[i + 1..];
      assert s == word + ['-'] + after;
      SegmentTexts(after);
      FirstWordCounts(s, i);
      assert SplitOn(s, '-') == [word] + SplitOn(after, '-');
      hide MatchesSegmentPattern;
      assert IsSegmentText(s) <==> IsWord(word) && IsSegmentText(after) by {
        var pieces := SplitOn(s, '-');
        assert forall k :: 0 <= k < |SplitOn(after, '-')| ==> pieces[k + 1] == SplitOn(after, '-')[k];
        assert pieces[0] == word;
        FirstAndRest(word, SplitOn(after, '-'));
      }
    }
  }

  lemma FirstAndRest(word: string, words: seq<string>)
    ensures (forall k :: 0 <= k < |[word] + words| ==> IsWord(([word] + words)[k])) <==>
      IsWord(word) && forall k :: 0 <= k < |words| ==> IsWord(words[k])
  {
    var all := [word] + words;
    assert all[0] == word && forall k :: 0 <= k < |words| ==> all[k + 1] == words[k];
  }

  lemma FirstWordCounts(s: string, i: nat)
    requires i < |s| && s[i] == '-' && '-' !in s[..i]
    requires forall k :: 0 <= k < |s| ==> (IsWordChar(s[k]) <==> IsWordCode(s[k] as int))
    ensures MatchesSegmentPattern(s) <==> IsWord(s[..i]) && MatchesSegmentPattern(s[i + 1..])
  {
    var word, after := s[..i], s[i + 1..];
    assert forall k :: 0 <= k < i ==> word[k] == s[k] && s[k] in word;
    assert forall k :: 0 <= k < |after| ==> after[k] == s[i + 1 + k];
    if MatchesSegmentPattern(s) {
      assert i > 0 && i + 1 < |s|;
      assert !(s[i] == '-' && s[i + 1] == '-');
    }
    if IsWord(word) && MatchesSegmentPattern(after) {
      assert s[|s| - 1] == after[|after| - 1] && s[0] == word[0];
      assert NoDoubleDash(s) by {
        forall k | 0 <= k < |s| - 1 ensures !(s[k] == '-' && s[k + 1] == '-') {
          if k > i {
            assert s[k] == after[k - i - 1] && s[k + 1] == after[k - i];
          } else if k == i {
            assert s[k + 1] == after[0];
          }
        }
      }
      forall k | 0 <= k < |s| ensures IsWordChar(s[k]) || s[k] == '-' {
        if k > i {
          assert s[k] == after[k - i - 1];
        } else if k < i {
          assert s[k] == word[k];
        }
      }
    }
  }

  /** An id is read exactly when its name is a segment, a dash and a UUID, and as that segment in lower case. */
  lemma IdsAre(lower: string -> string, normalize: string -> string, id: string, segment: string)
    ensures ParseThreadSegment(lower, normalize, id) == Some(segment) <==>
      exists text, uuid :: IsSegmentText(text) && IsUuidText(uuid) && lower(text) == segment
        && NormalizeAttachmentRelativePath(normalize, id) == Some(text + "-" + uuid)
  {
    hide NormalizeAttachmentRelativePath, IsUuid, IsUuidText, MatchesSegmentPattern, IsSegmentText;
    var normalized := NormalizeAttachmentRelativePath(normalize, id);
    if text, uuid :| IsSegmentText(text) && IsUuidText(uuid) && lower(text) == segment &&
                     normalized == Some(text + "-" + uuid) {
      var name := text + "-" + uuid;
      UuidTexts(uuid);
      SegmentTexts(text);
      NamesAreClean(text, uuid);
      assert name[..|text|] == text && name[|text| + 1..] == uuid;
    }
    if ParseThreadSegment(lower, normalize, id) == Some(segment) {
      var name := NormalizeAttachmentRelativePath(normalize, id).value;
      var split := |name| - UUID_CHARS - 1;
      UuidTexts(name[split + 1..]);
      SegmentTexts(name[..split]);
      assert name == name[..split] + "-" + name[split + 1..];
    }
  }

  lemma NamesAreClean(text: string, uuid: string)
    requires MatchesSegmentPattern(text) && IsUuid(uuid)
    ensures var name := text + "-" + uuid;
      '/' !in name && '.' !in name && |uuid| == 36 && text != ""
  {
  }
}
