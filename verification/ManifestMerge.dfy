/** Merging two manifests of one release: when it succeeds, what it gives, and its algebra. */
module ManifestMerge {
  import opened Optional
  import opened Ordering
  import opened UpdateManifest

  /**
   * Names that every plain object inherits. Looking one up in a record that has no such key of its
   * own still finds something, which is never equal to a scalar.
   */
  const INHERITED: set<string> := {
    "constructor", "hasOwnProperty", "isPrototypeOf", "propertyIsEnumerable", "toLocaleString", "toString", "valueOf"
  }

  datatype Merged = Success(manifest: Manifest) | DifferentVersions | ConflictingFile(url: string)
      | ConflictingExtra(key: string)

  predicate ExtraConflicts(merged: map<string, Scalar>, key: string, value: Scalar) {
    if key in merged then merged[key] != value else key in INHERITED
  }

  /** The secondary extras, in the order of their record, go over the primary ones, up to the first that conflicts. */
  method MergeExtras(primary: map<string, Scalar>, secondary: map<string, Scalar>, order: seq<string>)
    returns (merged: map<string, Scalar>, conflict: Option<string>)
    requires Lists(order, secondary)
    ensures conflict.None? <==> ExtrasAgree(primary, secondary)
    ensures conflict.None? ==> merged == primary + secondary
    ensures conflict.Some? ==> FirstConflict(primary, secondary, order, conflict.value)
  {
    hide ExtraConflicts, Remains, NoneConflicts, Lists, ExtrasAgree, FirstConflict, Over;
    merged := primary;
    ghost var left := secondary.Keys;
    AllRemain(primary, secondary, order);
    for i := 0 to |order|
      invariant Remains(left, order, i) && left <= secondary.Keys && merged == Over(primary, secondary, left)
      invariant NoneConflicts(primary, secondary, order, i)
    {
      var key := order[i];
      OneLessRemains(secondary, left, order, i);
      ExtraGoesOver(primary, secondary, left, key);
      OneMoreChecked(primary, secondary, order, i);
      if ExtraConflicts(merged, key, secondary[key]) {
        return merged, Some(key);
      }
      merged := merged[key := secondary[key]];
      left := left - {key};
    }
    NothingRemains(primary, secondary, left, order);
    return merged, None;
  }

  /** The keys still to come. */
  ghost predicate Remains(left: set<string>, order: seq<string>, i: nat) {
    && i <= |order|
    && (forall k :: i <= k < |order| ==> order[k] in left)
    && (forall key :: key in left ==> exists k :: i <= k < |order| && order[k] == key)
  }

  ghost predicate NoneConflicts(primary: map<string, Scalar>, secondary: map<string, Scalar>, order: seq<string>,
      i: nat) {
    forall k :: 0 <= k < i <= |order| ==>
      order[k] in secondary && !ExtraConflicts(primary, order[k], secondary[order[k]])
  }

  /** The secondary extras, but for some, over the primary ones. */
  function Over(primary: map<string, Scalar>, secondary: map<string, Scalar>, left: set<string>): map<string, Scalar> {
    primary + (secondary - left)
  }

  lemma AllRemain(primary: map<string, Scalar>, secondary: map<string, Scalar>, order: seq<string>)
    requires Lists(order, secondary)
    ensures Remains(secondary.Keys, order, 0) && Over(primary, secondary, secondary.Keys) == primary
    ensures NoneConflicts(primary, secondary, order, 0)
  {
  }

  lemma OneLessRemains(secondary: map<string, Scalar>, left: set<string>, order: seq<string>, i: nat)
    requires Lists(order, secondary) && Remains(left, order, i) && i < |order|
    ensures order[i] in left && order[i] in secondary && Remains(left - {order[i]}, order, i + 1)
  {
  }

  lemma OneMoreChecked(primary: map<string, Scalar>, secondary: map<string, Scalar>, order: seq<string>, i: nat)
    requires Lists(order, secondary) && i < |order| && NoneConflicts(primary, secondary, order, i)
    ensures order[i] in secondary
    ensures !ExtraConflicts(primary, order[i], secondary[order[i]]) ==> NoneConflicts(primary, secondary, order, i + 1)
    ensures ExtraConflicts(primary, order[i], secondary[order[i]]) ==>
      FirstConflict(primary, secondary, order, order[i]) && !ExtrasAgree(primary, secondary)
  {
  }

  lemma NothingRemains(primary: map<string, Scalar>, secondary: map<string, Scalar>, left: set<string>,
      order: seq<string>)
    requires Lists(order, secondary) && Remains(left, order, |order|)
    ensures Over(primary, secondary, left) == primary + secondary
    ensures NoneConflicts(primary, secondary, order, |order|) ==> ExtrasAgree(primary, secondary)
  {
    assert left == {};
    if NoneConflicts(primary, secondary, order, |order|) {
      forall key | key in secondary ensures !ExtraConflicts(primary, key, secondary[key]) {
        var k :| 0 <= k < |order| && order[k] == key;
      }
    }
  }

  /** One extra more, and what was found at its key before. */
  lemma ExtraGoesOver(primary: map<string, Scalar>, secondary: map<string, Scalar>, left: set<string>, key: string)
    requires left <= secondary.Keys && key in left
    ensures var merged := Over(primary, secondary, left);
      && merged[key := secondary[key]] == Over(primary, secondary, left - {key})
      && ExtraConflicts(merged, key, secondary[key]) == ExtraConflicts(primary, key, secondary[key])
  {
  }

  /** The key of the first extra, in the given order, that conflicts. */
  ghost predicate FirstConflict(primary: map<string, Scalar>, secondary: map<string, Scalar>, order: seq<string>,
      key: string)
    requires Lists(order, secondary)
  {
    exists k :: 0 <= k < |order| && order[k] == key && ExtraConflicts(primary, key, secondary[key])
                && forall j :: 0 <= j < k ==> !ExtraConflicts(primary, order[j], secondary[order[j]])
  }

  predicate ExtrasAgree(primary: map<string, Scalar>, secondary: map<string, Scalar>) {
    forall key :: key in secondary ==> !ExtraConflicts(primary, key, secondary[key])
  }

  // ---- files ----

  /** Entries for one URL are the same entry. */
  predicate FilesAgree(files: seq<File>) {
    forall f, g :: f in files && g in files && f.url == g.url ==> f == g
  }

  predicate HasUrl(files: seq<File>, url: string) {
    exists k :: 0 <= k < |files| && files[k].url == url
  }

  /** Each URL once, in the order of first occurrence. */
  function FirstOccurrences(files: seq<File>): seq<File> {
    if files == [] then []
    else
      var earlier, last := FirstOccurrences(files[..|files| - 1]), files[|files| - 1];
      if HasUrl(earlier, last.url) then earlier else earlier + [last]
  }

  /** The map holds every file read, under its URL, and nothing else. */
  ghost predicate Indexes(byUrl: map<string, File>, files: seq<File>) {
    && (forall f :: f in files ==> f.url in byUrl && byUrl[f.url] == f)
    && (forall url :: url in byUrl ==> byUrl[url] in files && byUrl[url].url == url)
  }

  lemma IndexOneMore(byUrl: map<string, File>, files: seq<File>, file: File)
    requires Indexes(byUrl, files)
    ensures file.url in byUrl <==> HasUrl(files, file.url)
    ensures file.url !in byUrl || byUrl[file.url] == file ==> Indexes(byUrl[file.url := file], files + [file])
  {
    HasUrlMember(files, file.url);
  }

  lemma NothingCollected()
    ensures FirstOccurrences([]) == []
  {
  }

  /** The map cannot hold two entries for one URL. */
  lemma IndexedAgree(byUrl: map<string, File>, files: seq<File>)
    requires Indexes(byUrl, files)
    ensures FilesAgree(files)
  {
  }

  lemma Disagree(files: seq<File>, f: File, g: File)
    requires f in files && g in files && f.url == g.url && f != g
    ensures !FilesAgree(files)
  {
  }

  /** A map keyed by URL keeps the position of a key that is set again. */
  method CollectFiles(files: seq<File>) returns (collected: seq<File>, conflict: Option<string>)
    ensures conflict.None? <==> FilesAgree(files)
    ensures conflict.None? ==> collected == FirstOccurrences(files)
  {
    hide HasUrl, FirstOccurrences, FilesAgree;
    collected := [];
    NothingCollected();
    var byUrl: map<string, File> := map[];
    for n := 0 to |files|
      invariant Indexes(byUrl, files[..n]) && collected == FirstOccurrences(files[..n])
    {
      var file := files[n];
      assert files[..n + 1] == files[..n] + [file] && files[..n + 1][..n] == files[..n];
      SameUrls(files[..n]);
      IndexOneMore(byUrl, files[..n], file);
      FirstOccurrencesOfLast(files[..n], file);
      if file.url in byUrl {
        var existing := byUrl[file.url];
        assert existing in files;
        if existing.sha512 != file.sha512 || existing.size != file.size {
          Disagree(files, existing, file);
          return collected, Some(file.url);
        }
      } else {
        collected := collected + [file];
      }
      byUrl := byUrl[file.url := file];
    }
    assert files[..|files|] == files;
    IndexedAgree(byUrl, files);
    return collected, None;
  }

  lemma HasUrlMember(files: seq<File>, url: string)
    ensures HasUrl(files, url) <==> exists f :: f in files && f.url == url
  {
    if f :| f in files && f.url == url {
      var k :| 0 <= k < |files| && files[k] == f;
    }
  }

  lemma NewUrl(files: seq<File>, file: File)
    ensures forall url :: HasUrl(files + [file], url) <==> HasUrl(files, url) || url == file.url
  {
    var more := files + [file];
    assert more[|files|] == file;
    forall url ensures HasUrl(more, url) <==> HasUrl(files, url) || url == file.url {
      if HasUrl(files, url) {
        var k :| 0 <= k < |files| && files[k].url == url;
        assert more[k].url == url;
      }
    }
  }

  lemma {:induction false} SameUrls(files: seq<File>)
    ensures forall url :: HasUrl(FirstOccurrences(files), url) <==> HasUrl(files, url)
  {
    if files != [] {
      var n := |files| - 1;
      SameUrls(files[..n]);
      assert files == files[..n] + [files[n]];
      NewUrl(files[..n], files[n]);
      NewUrl(FirstOccurrences(files[..n]), files[n]);
    }
  }

  /** Every listed entry is an input entry, and every URL is listed once. */
  lemma {:induction false} FirstOccurrencesAreUnique(files: seq<File>)
    ensures forall f :: f in FirstOccurrences(files) ==> f in files
    ensures forall i, j :: 0 <= i < j < |FirstOccurrences(files)| ==>
      FirstOccurrences(files)[i].url != FirstOccurrences(files)[j].url
    ensures FilesAgree(FirstOccurrences(files))
  {
    if files != [] {
      FirstOccurrencesAreUnique(files[..|files| - 1]);
    }
  }

  /** When entries agree, the result holds exactly the input entries. */
  lemma FirstOccurrencesAreAll(files: seq<File>)
    requires FilesAgree(files)
    ensures forall f :: f in FirstOccurrences(files) <==> f in files
  {
    FirstOccurrencesAreUnique(files);
    SameUrls(files);
    forall f | f in files ensures f in FirstOccurrences(files) {
      HasUrlMember(files, f.url);
      HasUrlMember(FirstOccurrences(files), f.url);
    }
  }

  lemma {:induction false} FirstOccurrencesOfPrefix(a: seq<File>, b: seq<File>)
    ensures FirstOccurrences(FirstOccurrences(a) + b) == FirstOccurrences(a + b)
  {
    var c := FirstOccurrences(a);
    if b == [] {
      assert c + b == c && a + b == a;
      FirstOccurrencesAreUnique(a);
      UniqueStays(c);
    } else {
      var n := |b| - 1;
      FirstOccurrencesOfPrefix(a, b[..n]);
      assert (a + b)[..|a| + n] == a + b[..n] && (c + b)[..|c| + n] == c + b[..n];
      assert (a + b)[|a| + n] == b[n] && (c + b)[|c| + n] == b[n];
    }
  }

  lemma {:induction false} UniqueStays(files: seq<File>)
    requires forall i, j :: 0 <= i < j < |files| ==> files[i].url != files[j].url
    ensures FirstOccurrences(files) == files
  {
    if files != [] {
      var n := |files| - 1;
      UniqueStays(files[..n]);
      assert files == files[..n] + [files[n]];
    }
  }

  lemma FirstOccurrencesOfLast(files: seq<File>, last: File)
    ensures FirstOccurrences(files + [last]) ==
      if HasUrl(FirstOccurrences(files), last.url) then FirstOccurrences(files) else FirstOccurrences(files) + [last]
  {
    assert (files + [last])[..|files|] == files;
  }

  lemma {:induction false} FirstOccurrencesOfSuffix(a: seq<File>, b: seq<File>)
    ensures FirstOccurrences(a + FirstOccurrences(b)) == FirstOccurrences(a + b)
  {
    hide FirstOccurrences, HasUrl;
    if b == [] {
      NothingCollected();
    } else {
      var n := |b| - 1;
      FirstOccurrencesOfSuffix(a, b[..n]);
      SuffixGrows(a, b[..n], b[n]);
      assert b == b[..n] + [b[n]] && a + b == a + b[..n] + [b[n]];
    }
  }

  lemma SuffixGrows(a: seq<File>, b: seq<File>, last: File)
    requires FirstOccurrences(a + FirstOccurrences(b)) == FirstOccurrences(a + b)
    ensures FirstOccurrences(a + FirstOccurrences(b + [last])) == FirstOccurrences(a + b + [last])
  {
    hide FirstOccurrences, HasUrl;
    var c := FirstOccurrences(b);
    FirstOccurrencesOfLast(a + b, last);
    FirstOccurrencesOfLast(b, last);
    if HasUrl(c, last.url) {
      SameUrl(b, last.url);
      SameUrl(a + b, last.url);
      UrlOfSuffix(a, b, last.url);
    } else {
      FirstOccurrencesOfLast(a + c, last);
      assert a + (c + [last]) == (a + c) + [last];
    }
  }

  lemma SameUrl(files: seq<File>, url: string)
    ensures HasUrl(FirstOccurrences(files), url) <==> HasUrl(files, url)
  {
    SameUrls(files);
  }

  lemma UrlOfSuffix(a: seq<File>, b: seq<File>, url: string)
    requires HasUrl(b, url)
    ensures HasUrl(a + b, url)
  {
    var k :| 0 <= k < |b| && b[k].url == url;
    assert (a + b)[|a| + k].url == url;
  }

  predicate SameEntries(a: seq<File>, b: seq<File>) {
    (forall f :: f in a ==> f in b) && (forall f :: f in b ==> f in a)
  }

  lemma AgreeBySet(a: seq<File>, b: seq<File>)
    requires SameEntries(a, b)
    ensures FilesAgree(a) <==> FilesAgree(b)
  {
  }

  // ---- manifests ----

  /** The later date, by the order of strings. */
  function LaterDate(a: string, b: string): string {
    if CompareStrings(a, b) >= 0 then a else b
  }

  function Merge(a: Manifest, b: Manifest): Option<Manifest> {
    if a.version != b.version || !FilesAgree(a.files + b.files) || !ExtrasAgree(a.extras, b.extras) then None
    else Some(Manifest(a.version, LaterDate(a.releaseDate, b.releaseDate), FirstOccurrences(a.files + b.files),
      a.extras + b.extras))
  }

  method MergeUpdateManifests(primary: Manifest, secondary: Manifest, order: seq<string>) returns (result: Merged)
    requires Lists(order, secondary.extras)
    ensures result.Success? <==> Merge(primary, secondary).Some?
    ensures result.Success? ==> result.manifest == Merge(primary, secondary).value
    ensures result.DifferentVersions? <==> primary.version != secondary.version
    ensures result.ConflictingFile? <==>
      primary.version == secondary.version && !FilesAgree(primary.files + secondary.files)
    ensures result.ConflictingExtra? ==> FirstConflict(primary.extras, secondary.extras, order, result.key)
  {
    hide FilesAgree, ExtrasAgree, FirstOccurrences, FirstConflict, Lists;
    if primary.version != secondary.version {
      return DifferentVersions;
    }
    var files, fileConflict := CollectFiles(primary.files + secondary.files);
    if fileConflict.Some? {
      return ConflictingFile(fileConflict.value);
    }
    var extras, extraConflict := MergeExtras(primary.extras, secondary.extras, order);
    if extraConflict.Some? {
      return ConflictingExtra(extraConflict.value);
    }
    return Success(Manifest(primary.version, LaterDate(primary.releaseDate, secondary.releaseDate), files, extras));
  }

  /** No two entries for the same file or key contradict each other. */
  predicate Compatible(a: Manifest, b: Manifest) {
    a.version == b.version && FilesAgree(a.files + b.files) && SameShared(a.extras, b.extras)
  }

  /** The secondary manifest has an extra of an inherited name that the primary lacks. */
  predicate Trips(primary: map<string, Scalar>, secondary: map<string, Scalar>) {
    exists key :: key in secondary && key !in primary && key in INHERITED
  }

  /** Merging succeeds exactly for compatible manifests without such a name. */
  lemma MergeSucceedsWhen(a: Manifest, b: Manifest)
    ensures Merge(a, b).Some? <==> Compatible(a, b) && !Trips(a.extras, b.extras)
  {
    ExtrasAgreeWhen(a.extras, b.extras);
  }

  /** What a successful merge holds: the union of entries, each URL once, the union of extras, the later date. */
  lemma MergeGives(a: Manifest, b: Manifest)
    requires Merge(a, b).Some?
    ensures
      var m := Merge(a, b).value;
      && m.version == a.version == b.version
      && (forall f :: f in m.files <==> f in a.files || f in b.files)
      && (forall i, j :: 0 <= i < j < |m.files| ==> m.files[i].url != m.files[j].url)
      && m.extras.Keys == a.extras.Keys + b.extras.Keys
      && (forall key :: key in a.extras ==> m.extras[key] == a.extras[key])
      && (forall key :: key in b.extras ==> m.extras[key] == b.extras[key])
      && CompareStrings(m.releaseDate, a.releaseDate) >= 0 && CompareStrings(m.releaseDate, b.releaseDate) >= 0
      && (m.releaseDate == a.releaseDate || m.releaseDate == b.releaseDate)
  {
    FirstOccurrencesAreAll(a.files + b.files);
    FirstOccurrencesAreUnique(a.files + b.files);
    MergeSucceedsWhen(a, b);
    CompareStringsIsTotalPreorder();
    assert CompareStrings(a.releaseDate, b.releaseDate) < 0 <==> CompareStrings(b.releaseDate, a.releaseDate) > 0;
    assert CompareStrings(a.releaseDate, a.releaseDate) < 0 <==> CompareStrings(a.releaseDate, a.releaseDate) > 0;
    assert CompareStrings(b.releaseDate, b.releaseDate) < 0 <==> CompareStrings(b.releaseDate, b.releaseDate) > 0;
    assert CompareStrings(b.releaseDate, a.releaseDate) < 0 <==> CompareStrings(a.releaseDate, b.releaseDate) > 0;
  }

  lemma LaterDateIsAssociative(a: string, b: string, c: string)
    ensures LaterDate(LaterDate(a, b), c) == LaterDate(a, LaterDate(b, c))
  {
    CompareStringsIsTotalPreorder();
    assert CompareStrings(c, b) <= 0 && CompareStrings(b, a) <= 0 ==> CompareStrings(c, a) <= 0;
    assert CompareStrings(a, c) < 0 <==> CompareStrings(c, a) > 0;
    assert CompareStrings(a, b) < 0 <==> CompareStrings(b, a) > 0;
    assert CompareStrings(b, c) < 0 <==> CompareStrings(c, b) > 0;
    assert CompareStrings(a, b) <= 0 && CompareStrings(b, c) <= 0 ==> CompareStrings(a, c) <= 0;
    if CompareStrings(a, c) == 0 {
      CompareStringsZero(a, c);
    }
    assert CompareStrings(c, a) <= 0 && CompareStrings(a, b) <= 0 ==> CompareStrings(c, b) <= 0;
  }

  lemma LaterDateCommutes(a: string, b: string)
    ensures LaterDate(a, b) == LaterDate(b, a)
  {
    CompareStringsIsTotalPreorder();
    assert CompareStrings(a, b) < 0 <==> CompareStrings(b, a) > 0;
    assert CompareStrings(b, a) < 0 <==> CompareStrings(a, b) > 0;
    if CompareStrings(a, b) == 0 {
      CompareStringsZero(a, b);
    }
  }

  lemma AgreeOfParts(a: seq<File>, b: seq<File>)
    requires FilesAgree(a + b)
    ensures FilesAgree(a) && FilesAgree(b)
  {
    assert forall f :: f in a || f in b ==> f in a + b;
  }

  /** Replacing a part by its first occurrences changes neither agreement nor result. */
  lemma FilesAssociate(a: seq<File>, b: seq<File>, c: seq<File>)
    ensures (FilesAgree(a + b) && FilesAgree(FirstOccurrences(a + b) + c)) <==> FilesAgree(a + b + c)
    ensures (FilesAgree(b + c) && FilesAgree(a + FirstOccurrences(b + c))) <==> FilesAgree(a + b + c)
    ensures FirstOccurrences(FirstOccurrences(a + b) + c) == FirstOccurrences(a + FirstOccurrences(b + c))
  {
    if FilesAgree(a + b) {
      FirstOccurrencesAreAll(a + b);
      AgreeBySet(FirstOccurrences(a + b) + c, a + b + c);
    }
    if FilesAgree(b + c) {
      FirstOccurrencesAreAll(b + c);
      assert a + (b + c) == a + b + c;
      AgreeBySet(a + FirstOccurrences(b + c), a + b + c);
    }
    if FilesAgree(a + b + c) {
      AgreeOfParts(a + b, c);
      assert a + b + c == a + (b + c);
      AgreeOfParts(a, b + c);
    }
    FirstOccurrencesOfPrefix(a + b, c);
    FirstOccurrencesOfSuffix(a, b + c);
    assert (a + b) + c == a + (b + c);
  }

  function MergeLeft(a: Manifest, b: Manifest, c: Manifest): Option<Manifest> {
    var ab := Merge(a, b);
    if ab.None? then None else Merge(ab.value, c)
  }

  function MergeRight(a: Manifest, b: Manifest, c: Manifest): Option<Manifest> {
    var bc := Merge(b, c);
    if bc.None? then None else Merge(a, bc.value)
  }

  /** Some inherited name is an extra of the first and the third manifest but not of the second. */
  predicate SkipsInherited(a: Manifest, b: Manifest, c: Manifest) {
    exists key :: key in a.extras && key in c.extras && key !in b.extras && key in INHERITED
  }

  /** No two entries of the three contradict each other. */
  predicate AllCompatible(a: Manifest, b: Manifest, c: Manifest) {
    && a.version == b.version == c.version && FilesAgree(a.files + b.files + c.files)
    && SameShared(a.extras, b.extras) && SameShared(a.extras, c.extras) && SameShared(b.extras, c.extras)
  }

  predicate SameShared(a: map<string, Scalar>, b: map<string, Scalar>) {
    forall key :: key in a && key in b ==> a[key] == b[key]
  }

  /** An inherited name comes later than it first could: the grouping to the left, or to the right, trips over it. */
  predicate LeftTrips(a: Manifest, b: Manifest, c: Manifest) {
    exists key :: key in INHERITED && key !in a.extras && (key in b.extras || key in c.extras)
  }

  predicate RightTrips(a: Manifest, b: Manifest, c: Manifest) {
    || (exists key :: key in INHERITED && key !in a.extras && (key in b.extras || key in c.extras))
    || (exists key :: key in INHERITED && key !in b.extras && key in c.extras)
  }

  lemma ExtrasAgreeWhen(a: map<string, Scalar>, b: map<string, Scalar>)
    ensures ExtrasAgree(a, b) <==> SameShared(a, b) && !Trips(a, b)
  {
    forall key | key in b
      ensures ExtraConflicts(a, key, b[key]) <==>
        (key in a && a[key] != b[key]) || (key !in a && key in INHERITED)
    {
    }
  }

  lemma SharedOfUnion(a: map<string, Scalar>, b: map<string, Scalar>, c: map<string, Scalar>)
    requires SameShared(a, b)
    ensures SameShared(a + b, c) <==> SameShared(a, c) && SameShared(b, c)
    ensures SameShared(c, a + b) <==> SameShared(a, c) && SameShared(b, c)
  {
    forall key | key in a ensures key in a + b && (a + b)[key] == a[key] {
    }
  }

  lemma LeftExtrasAgreeWhen(a: map<string, Scalar>, b: map<string, Scalar>, c: map<string, Scalar>)
    ensures ExtrasAgree(a, b) && ExtrasAgree(a + b, c) <==>
      && SameShared(a, b) && SameShared(a, c) && SameShared(b, c)
      && !exists key :: key in INHERITED && key !in a && (key in b || key in c)
  {
    hide ExtrasAgree, ExtraConflicts;
    ExtrasAgreeWhen(a, b);
    ExtrasAgreeWhen(a + b, c);
    if SameShared(a, b) {
      SharedOfUnion(a, b, c);
    }
    hide SameShared;
  }

  lemma RightExtrasAgreeWhen(a: map<string, Scalar>, b: map<string, Scalar>, c: map<string, Scalar>)
    ensures ExtrasAgree(b, c) && ExtrasAgree(a, b + c) <==>
      && SameShared(a, b) && SameShared(a, c) && SameShared(b, c)
      && !(exists key :: key in INHERITED && key !in a && (key in b || key in c))
      && !exists key :: key in INHERITED && key !in b && key in c
  {
    hide ExtrasAgree, ExtraConflicts;
    ExtrasAgreeWhen(b, c);
    ExtrasAgreeWhen(a, b + c);
    if SameShared(b, c) {
      SharedOfUnion(b, c, a);
      SharedFlips(a, b);
      SharedFlips(a, c);
    }
    hide SameShared;
  }

  lemma SharedFlips(a: map<string, Scalar>, b: map<string, Scalar>)
    ensures SameShared(a, b) <==> SameShared(b, a)
  {
  }

  /** The grouping to the left succeeds exactly for compatible manifests over which it does not trip. */
  lemma LeftMergesWhen(a: Manifest, b: Manifest, c: Manifest)
    ensures MergeLeft(a, b, c).Some? <==> AllCompatible(a, b, c) && !LeftTrips(a, b, c)
  {
    FilesAssociate(a.files, b.files, c.files);
    LeftExtrasAgreeWhen(a.extras, b.extras, c.extras);
    hide FilesAgree, ExtrasAgree, FirstOccurrences, LaterDate, HasUrl, SameShared;
  }

  /** The same for the grouping to the right. */
  lemma RightMergesWhen(a: Manifest, b: Manifest, c: Manifest)
    ensures MergeRight(a, b, c).Some? <==> AllCompatible(a, b, c) && !RightTrips(a, b, c)
  {
    FilesAssociate(a.files, b.files, c.files);
    RightExtrasAgreeWhen(a.extras, b.extras, c.extras);
    hide FilesAgree, ExtrasAgree, FirstOccurrences, LaterDate, HasUrl, SameShared;
  }

  /** What a merge gives, field by field. */
  lemma MergeFields(a: Manifest, b: Manifest)
    requires Merge(a, b).Some?
    ensures var m := Merge(a, b).value;
      && m.version == a.version && m.releaseDate == LaterDate(a.releaseDate, b.releaseDate)
      && m.files == FirstOccurrences(a.files + b.files) && m.extras == a.extras + b.extras
  {
    hide FilesAgree, ExtrasAgree, FirstOccurrences, LaterDate;
  }

  /** Where both groupings succeed they give the same. */
  lemma GroupingsAgree(a: Manifest, b: Manifest, c: Manifest)
    requires MergeLeft(a, b, c).Some? && MergeRight(a, b, c).Some?
    ensures MergeLeft(a, b, c) == MergeRight(a, b, c)
  {
    var ab, bc := Merge(a, b).value, Merge(b, c).value;
    hide Merge, FirstOccurrences, LaterDate, FilesAgree;
    MergeFields(a, b);
    MergeFields(b, c);
    MergeFields(ab, c);
    MergeFields(a, bc);
    FilesAssociate(a.files, b.files, c.files);
    LaterDateIsAssociative(a.releaseDate, b.releaseDate, c.releaseDate);
    UnionAssociates(a.extras, b.extras, c.extras);
  }

  lemma UnionAssociates(a: map<string, Scalar>, b: map<string, Scalar>, c: map<string, Scalar>)
    ensures (a + b) + c == a + (b + c)
  {
  }

  /**
   * Merging is associative, failure included, for all manifests but those that are compatible, have no
   * inherited name that is missing from the first, and have one in the outer two that the middle one lacks.
   */
  lemma MergeAssociates(a: Manifest, b: Manifest, c: Manifest)
    ensures MergeLeft(a, b, c) == MergeRight(a, b, c) <==>
      !(AllCompatible(a, b, c) && !LeftTrips(a, b, c) && SkipsInherited(a, b, c))
  {
    LeftMergesWhen(a, b, c);
    RightMergesWhen(a, b, c);
    hide MergeLeft, MergeRight, AllCompatible;
    if MergeLeft(a, b, c).Some? && MergeRight(a, b, c).Some? {
      GroupingsAgree(a, b, c);
    }
  }

  /** Swapping the manifests gives the same up to file order, unless one alone has an inherited name. */
  lemma MergeCommutes(a: Manifest, b: Manifest)
    requires Merge(a, b).Some?
    ensures Merge(b, a).Some? <==> !Trips(b.extras, a.extras)
    ensures Merge(b, a).Some? ==>
      var m, n := Merge(a, b).value, Merge(b, a).value;
      m.version == n.version && m.releaseDate == n.releaseDate && m.extras == n.extras && SameEntries(m.files, n.files)
  {
    MergeSucceedsWhen(a, b);
    MergeSucceedsWhen(b, a);
    AgreeBySet(a.files + b.files, b.files + a.files);
    FirstOccurrencesAreAll(a.files + b.files);
    FirstOccurrencesAreAll(b.files + a.files);
    LaterDateCommutes(a.releaseDate, b.releaseDate);
  }

  /** The exception is real: an extra called `constructor`. */
  lemma InheritedNamesTrip()
    ensures
      var with := Manifest("1", "d", [File("u", "s", 1)], map["constructor" := Str("x")]);
      var without := Manifest("1", "d", [File("u", "s", 1)], map[]);
      Compatible(without, with) && Merge(without, with).None? && Merge(with, without).Some?
      && MergeLeft(with, without, with).Some? && MergeRight(with, without, with).None?
  {
    var with := Manifest("1", "d", [File("u", "s", 1)], map["constructor" := Str("x")]);
    var without := Manifest("1", "d", [File("u", "s", 1)], map[]);
    MergeSucceedsWhen(without, with);
    MergeSucceedsWhen(with, without);
    assert "constructor" in with.extras && "constructor" !in without.extras && "constructor" in INHERITED;
    assert Trips(without.extras, with.extras);
    var m := Merge(with, without).value;
    FirstOccurrencesAreAll(with.files + without.files);
    MergeSucceedsWhen(m, with);
    assert FilesAgree(m.files + with.files);
  }
}
