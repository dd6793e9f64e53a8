/** Attachment ids: a readable form of the thread id, a dash, and a random UUID. */
module AttachmentId {
  import opened Optional
  import opened Text

  const THREAD_SEGMENT_MAX_CHARS: nat := 80

  const UUID_CHARS: nat := 36

  // ---- alphabets ----

  predicate IsLower(c: char) {
    'a' <= c <= 'z' || IsDigit(c)
  }

  predicate IsUpper(c: char) {
    'A' <= c <= 'Z'
  }

  /** A letter of either case, a digit or an underscore. */
  predicate IsWordChar(c: char) {
    IsLower(c) || IsUpper(c) || c == '_'
  }

  predicate IsMark(c: char) {
    c == '-' || c == '_'
  }

  /** Characters no step of the clean-up changes or removes, except at an end or in a row of dashes. */
  predicate IsPlain(s: string) {
    forall k :: 0 <= k < |s| ==> IsLower(s[k]) || IsMark(s[k])
  }

  /** What is used of lower-casing: no ASCII capital is left, and plain text stays as it is. */
  ghost predicate IsLowerCaser(lower: string -> string) {
    && (forall s, k :: 0 <= k < |lower(s)| ==> !IsUpper(lower(s)[k]))
    && (forall s :: IsPlain(s) ==> lower(s) == s)
  }

  // ---- the clean-up ----

  /** Each run of other characters becomes one dash. */
  function ReplaceRuns(s: string): string {
    if s == "" then ""
    else if IsWordChar(s[0]) || s[0] == '-' then [s[0]] + ReplaceRuns(s[1..])
    else if |s| > 1 && !IsWordChar(s[1]) && s[1] != '-' then ReplaceRuns(s[1..])
    else "-" + ReplaceRuns(s[1..])
  }

  function CollapseDashes(s: string): string {
    if s == "" then ""
    else if |s| > 1 && s[0] == '-' && s[1] == '-' then CollapseDashes(s[1..])
    else [s[0]] + CollapseDashes(s[1..])
  }

  function StripStart(s: string): string {
    if s != "" && IsMark(s[0]) then StripStart(s[1..]) else s
  }

  function StripEnd(s: string): string {
    if s != "" && IsMark(s[|s| - 1]) then StripEnd(s[..|s| - 1]) else s
  }

  function Cut(s: string, n: nat): string {
    if |s| <= n then s else s[..n]
  }

  function ToSafeThreadAttachmentSegment(lower: string -> string, threadId: string): Option<string> {
    var joined := CollapseDashes(ReplaceRuns(lower(Trim(threadId))));
    var segment := StripEnd(Cut(StripEnd(StripStart(joined)), THREAD_SEGMENT_MAX_CHARS));
    if segment == "" then None else Some(segment)
  }

  // ---- what the clean-up gives ----

  predicate NoDoubleDash(s: string) {
    forall k :: 0 <= k < |s| - 1 ==> !(s[k] == '-' && s[k + 1] == '-')
  }

  /** At most 80 plain characters, no two dashes in a row, a letter or digit at both ends. */
  predicate IsSegment(s: string) {
    && 0 < |s| <= THREAD_SEGMENT_MAX_CHARS && IsPlain(s) && NoDoubleDash(s)
    && !IsMark(s[0]) && !IsMark(s[|s| - 1])
  }

  lemma {:induction false} ReplaceRunsIsPlain(s: string)
    requires forall k :: 0 <= k < |s| ==> !IsUpper(s[k])
    ensures IsPlain(ReplaceRuns(s))
  {
    if s != "" {
      ReplaceRunsIsPlain(s[1..]);
    }
  }

  lemma {:induction false} CollapseDashesFacts(s: string)
    requires IsPlain(s)
    ensures IsPlain(CollapseDashes(s)) && NoDoubleDash(CollapseDashes(s))
    ensures s != "" ==> CollapseDashes(s) != "" && CollapseDashes(s)[0] == s[0]
  {
    if s != "" {
      CollapseDashesFacts(s[1..]);
    }
  }

  lemma {:induction false} StripStartFacts(s: string)
    requires IsPlain(s) && NoDoubleDash(s)
    ensures var t := StripStart(s); IsPlain(t) && NoDoubleDash(t) && (t != "" ==> !IsMark(t[0]))
  {
    if s != "" && IsMark(s[0]) {
      StripStartFacts(s[1..]);
    }
  }

  lemma {:induction false} StripEndFacts(s: string)
    ensures StripEnd(s) <= s && (StripEnd(s) != "" ==> !IsMark(StripEnd(s)[|StripEnd(s)| - 1]))
  {
    if s != "" && IsMark(s[|s| - 1]) {
      StripEndFacts(s[..|s| - 1]);
    }
  }

  lemma SegmentShape(lower: string -> string, threadId: string)
    requires IsLowerCaser(lower)
    ensures var segment := ToSafeThreadAttachmentSegment(lower, threadId); segment.Some? ==> IsSegment(segment.value)
  {
    var lowered := lower(Trim(threadId));
    ReplaceRunsIsPlain(lowered);
    var joined := CollapseDashes(ReplaceRuns(lowered));
    CollapseDashesFacts(ReplaceRuns(lowered));
    StripStartFacts(joined);
    var started := StripStart(joined);
    StripEndFacts(started);
    var cut := Cut(StripEnd(started), THREAD_SEGMENT_MAX_CHARS);
    StripEndFacts(cut);
    var segment := StripEnd(cut);
    assert segment <= started;
    assert forall k :: 0 <= k < |segment| ==> segment[k] == started[k];
  }

  lemma {:induction false} ReplaceRunsKeeps(s: string)
    requires IsPlain(s)
    ensures ReplaceRuns(s) == s
  {
    if s != "" {
      ReplaceRunsKeeps(s[1..]);
    }
  }

  lemma {:induction false} CollapseDashesKeeps(s: string)
    requires NoDoubleDash(s)
    ensures CollapseDashes(s) == s
  {
    if s != "" {
      assert |s| > 1 ==> !(s[0] == '-' && s[1] == '-');
      CollapseDashesKeeps(s[1..]);
    }
  }

  lemma SegmentKept(lower: string -> string, s: string)
    requires IsLowerCaser(lower) && IsSegment(s)
    ensures ToSafeThreadAttachmentSegment(lower, s) == Some(s)
  {
    TrimmedStays(s);
    ReplaceRunsKeeps(s);
    CollapseDashesKeeps(s);
  }

  /** The segments are exactly the texts of that shape, so cleaning up a segment again changes nothing. */
  lemma SegmentsAre(lower: string -> string, s: string)
    requires IsLowerCaser(lower)
    ensures (exists threadId :: ToSafeThreadAttachmentSegment(lower, threadId) == Some(s)) <==> IsSegment(s)
    ensures IsSegment(s) ==> ToSafeThreadAttachmentSegment(lower, s) == Some(s)
  {
    if threadId :| ToSafeThreadAttachmentSegment(lower, threadId) == Some(s) {
      SegmentShape(lower, threadId);
    }
    if IsSegment(s) {
      SegmentKept(lower, s);
    }
  }

  lemma CleanUpIsIdempotent(lower: string -> string, threadId: string)
    requires IsLowerCaser(lower)
    ensures var segment := ToSafeThreadAttachmentSegment(lower, threadId);
      segment.Some? ==> ToSafeThreadAttachmentSegment(lower, segment.value) == segment
  {
    SegmentShape(lower, threadId);
    var segment := ToSafeThreadAttachmentSegment(lower, threadId);
    if segment.Some? {
      SegmentKept(lower, segment.value);
    }
  }

  // ---- ids ----

  predicate IsHex(c: char) {
    IsDigit(c) || 'a' <= c <= 'f' || 'A' <= c <= 'F'
  }

  /** Groups of 8, 4, 4, 4 and 12 hexadecimal digits. */
  predicate IsUuid(s: string) {
    && |s| == UUID_CHARS
    && forall k :: 0 <= k < UUID_CHARS ==> if k == 8 || k == 13 || k == 18 || k == 23 then s[k] == '-' else IsHex(s[k])
  }

  predicate IsLowerUuid(s: string) {
    IsUuid(s) && IsPlain(s)
  }

  function CreateAttachmentId(lower: string -> string, threadId: string, uuid: string): Option<string> {
    match ToSafeThreadAttachmentSegment(lower, threadId)
    case None => None
    case Some(segment) => Some(segment + "-" + uuid)
  }

  /** Words of one or more characters with single dashes between them. */
  predicate MatchesSegmentPattern(s: string) {
    && s != "" && s[0] != '-' && s[|s| - 1] != '-' && NoDoubleDash(s)
    && forall k :: 0 <= k < |s| ==> IsWordChar(s[k]) || s[k] == '-'
  }

  /** What is used of path normalisation: a name without separators and dots stays as it is. */
  ghost predicate IsNormalizer(normalize: string -> string) {
    forall s :: s != "" && '/' !in s && '\\' !in s && '.' !in s ==> normalize(s) == s
  }

  function DropLeadingSeparators(s: string): string {
    if s != "" && (s[0] == '/' || s[0] == '\\') then DropLeadingSeparators(s[1..]) else s
  }

  function ForwardSlashes(s: string): string {
    seq(|s|, k requires 0 <= k < |s| => if s[k] == '\\' then '/' else s[k])
  }

  function NormalizeAttachmentRelativePath(normalize: string -> string, path: string): Option<string> {
    var normalized := DropLeadingSeparators(normalize(path));
    if normalized == "" || ".." <= normalized || '\0' in normalized then None else Some(ForwardSlashes(normalized))
  }

  /** The UUID is the last 36 characters, so the split is never in doubt. */
  function ParseThreadSegment(lower: string -> string, normalize: string -> string, id: string): Option<string> {
    match NormalizeAttachmentRelativePath(normalize, id)
    case None => None
    case Some(name) =>
      if '/' in name || '.' in name || |name| <= UUID_CHARS + 1 then None
      else
        var split := |name| - UUID_CHARS - 1;
        if name[split] == '-' && IsUuid(name[split + 1..]) && MatchesSegmentPattern(name[..split])
          then Some(lower(name[..split])) else None
  }

  lemma PlainNameIsKept(normalize: string -> string, name: string)
    requires IsNormalizer(normalize) && name != "" && IsPlain(name)
    ensures NormalizeAttachmentRelativePath(normalize, name) == Some(name)
    ensures '/' !in name && '.' !in name
  {
    assert normalize(name) == name;
    assert ForwardSlashes(name) == name;
  }

  /** Parsing a created id gives back the segment, for every thread id that has one and every UUID. */
  lemma CreatedIdParses(lower: string -> string, normalize: string -> string, threadId: string, uuid: string)
    requires IsLowerCaser(lower) && IsNormalizer(normalize) && IsLowerUuid(uuid)
    ensures var id := CreateAttachmentId(lower, threadId, uuid);
      id.Some? ==> ParseThreadSegment(lower, normalize, id.value) == ToSafeThreadAttachmentSegment(lower, threadId)
  {
    hide ToSafeThreadAttachmentSegment, NormalizeAttachmentRelativePath, IsNormalizer;
    SegmentShape(lower, threadId);
    var parsed := ToSafeThreadAttachmentSegment(lower, threadId);
    if parsed.Some? {
      var segment := parsed.value;
      var id := segment + "-" + uuid;
      PlainNameIsKept(normalize, id);
      assert id[..|segment|] == segment && id[|segment| + 1..] == uuid;
      assert lower(segment) == segment;
    }
  }

  /** An id tells both its segment and its UUID. */
  lemma CreatedIdsDiffer(lower: string -> string, threadId: string, uuid: string, otherThreadId: string,
      otherUuid: string)
    requires IsLowerUuid(uuid) && IsLowerUuid(otherUuid)
    requires CreateAttachmentId(lower, threadId, uuid).Some?
    requires CreateAttachmentId(lower, threadId, uuid) == CreateAttachmentId(lower, otherThreadId, otherUuid)
    ensures uuid == otherUuid
    ensures ToSafeThreadAttachmentSegment(lower, threadId) == ToSafeThreadAttachmentSegment(lower, otherThreadId)
  {
    hide ToSafeThreadAttachmentSegment;
    var a, b := ToSafeThreadAttachmentSegment(lower, threadId).value,
      ToSafeThreadAttachmentSegment(lower, otherThreadId).value;
    var id := a + "-" + uuid;
    assert id == b + "-" + otherUuid;
    assert uuid == id[|id| - UUID_CHARS..] == otherUuid;
    assert a == id[..|id| - UUID_CHARS - 1] == b;
  }
}
