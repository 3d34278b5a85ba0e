/**
 * How `DockerPublish.execute` names the image: the repository path, the primary tag and reference,
 * the list of additional tags and their expansion into full references.
 */
module References {
  import opened Text
  import opened Collections
  import opened PyValue
  import opened Normalize

  // ---------------------------------------------------------------- repository

  /** `[registry, username] + ([project] if project else []) + [image]`. */
  function RepositoryParts(registry: string, username: string, project: string, image: string): seq<string> {
    [registry, username] + (if project != "" then [project] else []) + [image]
  }

  function KeepNonEmpty(part: string): Option<string> {
    if part != "" then Some(part) else None
  }

  /**
   * `"/".join(part for part in repository_parts if part)`: the `/`-join of the non-empty members of
   * registry, username, project and image, in that order.
   */
  function Repository(registry: string, username: string, project: string, image: string): (r: string)
    ensures r == Join("/", FilterMap([registry, username, project, image], KeepNonEmpty))
  {
    RepositoryPartsKept(registry, username, project, image);
    Join("/", FilterMap(RepositoryParts(registry, username, project, image), KeepNonEmpty))
  }

  /** The default registry, username and project put the image at `ghcr.io/bkhieb/trailherotv/<image>`. */
  lemma DefaultRepository(image: string)
    requires image != ""
    ensures Repository("ghcr.io", "bkhieb", "trailherotv", image) == "ghcr.io/bkhieb/trailherotv/" + image
  {
    var parts := ["ghcr.io", "bkhieb", "trailherotv", image];
    FilterMapKeepsAll(parts, KeepNonEmpty, parts);
    JoinFour("/", "ghcr.io", "bkhieb", "trailherotv", image);
    DefaultPrefix();
  }

  lemma DefaultPrefix()
    ensures "ghcr.io" + "/" + "bkhieb" + "/" + "trailherotv" + "/" == "ghcr.io/bkhieb/trailherotv/"
  {
  }

  lemma JoinFour(sep: string, a: string, b: string, c: string, d: string)
    ensures Join(sep, [a, b, c, d]) == a + sep + b + sep + c + sep + d
  {
    JoinFront(sep, a, [b, c, d]);
    assert [a, b, c, d] == [a] + [b, c, d];
    JoinFront(sep, b, [c, d]);
    assert [b, c, d] == [b] + [c, d];
    JoinFront(sep, c, [d]);
    assert [c, d] == [c] + [d];
  }


  /** The conditional append of the project changes nothing: an empty project is dropped by the filter anyway. */
  lemma RepositoryPartsKept(registry: string, username: string, project: string, image: string)
    ensures FilterMap(RepositoryParts(registry, username, project, image), KeepNonEmpty)
         == FilterMap([registry, username, project, image], KeepNonEmpty)
  {
    var ru := [registry, username];
    assert [registry, username, project, image] == ru + [project] + [image];
    FilterMapAppend(ru + [project], [image], KeepNonEmpty);
    FilterMapAppend(ru, [project], KeepNonEmpty);
    if project == "" {
      assert [project][..0] == [];
      assert FilterMap([project], KeepNonEmpty) == [];
      FilterMapAppend(ru, [image], KeepNonEmpty);
      assert RepositoryParts(registry, username, project, image) == ru + [image];
    } else {
      assert RepositoryParts(registry, username, project, image) == ru + [project] + [image];
    }
  }

  /**
   * When no part holds a `/`, the repository splits back, at `/`, into exactly its non-empty parts
   * in their order: it never has an empty path segment.
   */
  lemma RepositorySegments(registry: string, username: string, project: string, image: string)
    requires image != ""
    requires '/' !in registry && '/' !in username && '/' !in project && '/' !in image
    ensures var segments := Split(Repository(registry, username, project, image), '/');
      && segments == FilterMap([registry, username, project, image], KeepNonEmpty)
      && forall i :: 0 <= i < |segments| ==> segments[i] != ""
  {
    var all := [registry, username, project, image];
    var kept := FilterMap(all, KeepNonEmpty);
    forall i | 0 <= i < |kept|
      ensures kept[i] != "" && '/' !in kept[i]
    {
      FilterMapIn(all, KeepNonEmpty, kept[i]);
    }
    FilterMapIn(all, KeepNonEmpty, image);
    assert all[3] == image;
    SplitJoin(kept, '/');
  }

  /** The repository ends with the image name, which is always its last segment. */
  lemma RepositoryEndsWithImage(registry: string, username: string, project: string, image: string)
    requires image != ""
    ensures EndsWith(Repository(registry, username, project, image), image)
  {
    var parts := RepositoryParts(registry, username, project, image);
    var init := parts[..|parts| - 1];
    assert parts == init + [image];
    FilterMapAppend(init, [image], KeepNonEmpty);
    JoinLast("/", FilterMap(init, KeepNonEmpty), image);
  }

  /** Joining ends with the last piece. */
  lemma {:induction false} JoinLast(sep: string, parts: seq<string>, last: string)
    ensures EndsWith(Join(sep, parts + [last]), last)
    decreases |parts|
  {
    var all := parts + [last];
    if |parts| == 0 {
      assert all == [last];
    } else {
      assert all[1..] == parts[1..] + [last];
      JoinLast(sep, parts[1..], last);
      var rest := Join(sep, all[1..]);
      assert Join(sep, all) == (all[0] + sep) + rest;
    }
  }

  // ---------------------------------------------------------------- primary tag

  /**
   * The primary tag: the stripped `tag` argument when it is truthy, otherwise the dated tag of the
   * stripped `date` and `iteration`.
   */
  function PrimaryTag(explicitTag: Raw, date: Raw, iteration: Raw): (r: string)
    ensures Truthy(explicitTag) ==> r == Strip(Str(explicitTag))
    ensures !Truthy(explicitTag) ==> r == DatedTag(Strip(Str(date)), Strip(Str(iteration)))
  {
    if Truthy(explicitTag) then Strip(Str(explicitTag))
    else DatedTag(Strip(Str(date)), Strip(Str(iteration)))
  }

  /** `f"{date_value}-{iteration_value}"` with an empty iteration read as `1`. */
  function DatedTag(dateValue: string, iterationValue: string): string {
    dateValue + "-" + (if iterationValue == "" then "1" else iterationValue)
  }

  /**
   * A dated tag is the date, a `-`, and a non-empty stripped iteration: the given one, or `1` in its
   * place when it is empty.
   */
  lemma DatedTagShape(dateValue: string, iterationValue: string)
    requires Strip(iterationValue) == iterationValue
    ensures var r := DatedTag(dateValue, iterationValue);
      var it := r[|dateValue| + 1..];
      && |dateValue| + 1 < |r| && r[..|dateValue|] == dateValue && r[|dateValue|] == '-'
      && it != "" && Strip(it) == it
      && (iterationValue != "" ==> it == iterationValue)
  {
    var it := if iterationValue == "" then "1" else iterationValue;
    var r := dateValue + "-" + it;
    assert r[..|dateValue|] == dateValue && r[|dateValue| + 1..] == it;
    StripOne();
  }

  lemma StripOne()
    ensures Strip("1") == "1"
  {
    TrimPadded([], "1", [], Whitespace);
    assert [] + "1" + [] == "1";
  }

  /** Without an explicit tag the iteration given is stripped, so the dated tag's shape applies. */
  lemma PrimaryTagFromDate(explicitTag: Raw, date: Raw, iteration: Raw)
    requires !Truthy(explicitTag)
    ensures var d := Strip(Str(date));
      var r := PrimaryTag(explicitTag, date, iteration);
      && |d| + 1 < |r| && r[..|d|] == d && r[|d|] == '-' && r[|d| + 1..] != ""
  {
    StripIdempotent(Str(iteration));
    DatedTagShape(Strip(Str(date)), Strip(Str(iteration)));
  }

  /** With no tag, date or iteration argument, the tag is today's date followed by `-1`. */
  lemma PrimaryTagDefault(today: string)
    ensures PrimaryTag(RNone, RStr(today), RInt(1)) == Strip(today) + "-1"
  {
    assert Str(RInt(1)) == "1";
    StripOne();
  }

  /** `f"{repository}:{primary_tag}"`. */
  function ImageReference(repository: string, primaryTag: string): (r: string)
    ensures StartsWith(r, repository) && |r| == |repository| + 1 + |primaryTag|
    ensures r[|repository|] == ':' && r[|repository| + 1..] == primaryTag
  {
    repository + ":" + primaryTag
  }

  // ---------------------------------------------------------------- additional tags

  /** The normalised `additional_tags`, with `latest` appended when `tag_latest` asks for it and it is missing. */
  function AdditionalTags(additional: Raw, tagLatest: Raw): (r: seq<string>)
    ensures var tags := NormalizeCollection(additional);
      && |tags| <= |r| <= |tags| + 1 && r[..|tags|] == tags
      && (|r| > |tags| <==> ToBool(tagLatest, false) && "latest" !in tags)
      && (|r| > |tags| ==> r[|tags|] == "latest")
  {
    var tags := NormalizeCollection(additional);
    if ToBool(tagLatest, false) && "latest" !in tags then tags + ["latest"] else tags
  }

  /**
   * `latest` is appended at most once: when asked for, it is present, and it occurs as often as it
   * did before when it was already there, once otherwise; when not asked for, nothing changes.
   */
  lemma LatestAtMostOnce(additional: Raw, tagLatest: Raw)
    ensures var tags := NormalizeCollection(additional);
      var r := AdditionalTags(additional, tagLatest);
      && (ToBool(tagLatest, false) ==> "latest" in r)
      && (!ToBool(tagLatest, false) ==> r == tags)
      && multiset(r)["latest"] == if "latest" in tags then multiset(tags)["latest"]
                                 else if ToBool(tagLatest, false) then 1 else 0
  {
    var tags := NormalizeCollection(additional);
    if "latest" !in tags {
      assert multiset(tags)["latest"] == 0;
    }
    if ToBool(tagLatest, false) && "latest" !in tags {
      assert multiset(tags + ["latest"]) == multiset(tags) + multiset{"latest"};
    }
  }

  // ---------------------------------------------------------------- references

  /**
   * The expansion of a short tag exactly as the source writes it: kept when it holds `:` or starts
   * with the registry, `repository:tag` otherwise. An empty registry is a prefix of every tag.
   */
  function ExpandTagAsWritten(tag: string, repository: string, registry: string): (r: string)
    ensures registry == "" ==> r == tag
    ensures registry != "" ==> r == ExpandTag(tag, repository, registry)
  {
    if ':' in tag || StartsWith(tag, registry) then tag else repository + ":" + tag
  }

  /** With an empty registry, the test as written keeps every short tag unqualified. */
  lemma EmptyRegistryKeepsShortTag()
    ensures ExpandTagAsWritten("v1", "acme/app", "") == "v1"
    ensures ExpandTag("v1", "acme/app", "") == "acme/app:v1"
  {
    assert ':' !in "v1";
  }

  /**
   * The expansion of a tag into a reference: a tag that holds `:` or starts with a (non-empty)
   * registry is already a reference; any other becomes `repository:tag`.
   */
  function ExpandTag(tag: string, repository: string, registry: string): (r: string)
    ensures ':' in tag || (registry != "" && StartsWith(tag, registry)) ==> r == tag
    ensures !(':' in tag || (registry != "" && StartsWith(tag, registry)))
        ==> r == ImageReference(repository, tag)
    ensures ':' in r || (registry != "" && StartsWith(r, registry))
  {
    if ':' in tag || (registry != "" && StartsWith(tag, registry)) then tag
    else
      var r := repository + ":" + tag;
      assert r[|repository|] == ':';
      r
  }

  /** Expanding an expanded reference again changes nothing. */
  lemma ExpandTagIdempotent(tag: string, repository: string, registry: string)
    ensures var r := ExpandTag(tag, repository, registry);
      ExpandTag(r, repository, registry) == r
  {
  }

  /** The reference a tag of `additional_tags` yields: none for a blank tag. */
  function TagReference(repository: string, registry: string): string -> Option<string> {
    tag =>
      var t := Strip(tag);
      if t == "" then None else Some(ExpandTag(t, repository, registry))
  }

  /** `normalized_additional_refs`: the references of the non-blank tags, in order. */
  function ExpandTags(tags: seq<string>, repository: string, registry: string): (r: seq<string>)
    ensures |r| <= |tags|
    ensures forall ref :: ref in r ==> ':' in ref || (registry != "" && StartsWith(ref, registry))
  {
    TagReferencesFull(tags, repository, registry);
    FilterMap(tags, TagReference(repository, registry))
  }

  /** Every reference the tags yield is a full reference. */
  lemma TagReferencesFull(tags: seq<string>, repository: string, registry: string)
    ensures forall ref :: ref in FilterMap(tags, TagReference(repository, registry)) ==>
      ':' in ref || (registry != "" && StartsWith(ref, registry))
  {
    forall ref | ref in FilterMap(tags, TagReference(repository, registry))
      ensures ':' in ref || (registry != "" && StartsWith(ref, registry))
    {
      FilterMapIn(tags, TagReference(repository, registry), ref);
    }
  }

  /** `execute`'s loop that fills `normalized_additional_refs`. */
  method NormalizeAdditionalRefs(tags: seq<string>, repository: string, registry: string)
    returns (refs: seq<string>)
    ensures refs == ExpandTags(tags, repository, registry)
  {
    refs := [];
    for i := 0 to |tags|
      invariant refs == FilterMap(tags[..i], TagReference(repository, registry))
    {
      FilterMapStep(tags, i, TagReference(repository, registry));
      var tag := Strip(tags[i]);
      if tag != "" {
        if ':' in tag || (registry != "" && StartsWith(tag, registry)) {
          refs := refs + [tag];
        } else {
          refs := refs + [repository + ":" + tag];
        }
      }
    }
    assert tags[..|tags|] == tags;
  }

  /**
   * Every additional reference is the expansion of a non-blank stripped tag of the input, and is
   * itself a full reference: it holds `:` or starts with the registry.
   */
  lemma ExpandTagsFrom(tags: seq<string>, repository: string, registry: string, ref: string)
    requires ref in ExpandTags(tags, repository, registry)
    ensures exists i :: 0 <= i < |tags| && Strip(tags[i]) != ""
                      && ref == ExpandTag(Strip(tags[i]), repository, registry)
    ensures ':' in ref || (registry != "" && StartsWith(ref, registry))
  {
    FilterMapIn(tags, TagReference(repository, registry), ref);
    var i :| 0 <= i < |tags| && TagReference(repository, registry)(tags[i]) == Some(ref);
  }

  /** Tags are expanded one by one in their order: expanding a concatenation concatenates. */
  lemma ExpandTagsKeepOrder(a: seq<string>, b: seq<string>, repository: string, registry: string)
    ensures ExpandTags(a + b, repository, registry)
         == ExpandTags(a, repository, registry) + ExpandTags(b, repository, registry)
  {
    FilterMapAppend(a, b, TagReference(repository, registry));
  }

  /** Normalised tags that are short are all qualified with the repository, in order. */
  lemma ExpandShortTags(tags: seq<string>, repository: string, registry: string)
    requires forall i :: 0 <= i < |tags| ==> tags[i] != "" && Strip(tags[i]) == tags[i]
    requires forall i :: 0 <= i < |tags| ==> ':' !in tags[i] && !(registry != "" && StartsWith(tags[i], registry))
    ensures ExpandTags(tags, repository, registry)
         == seq(|tags|, i requires 0 <= i < |tags| => repository + ":" + tags[i])
  {
    var refs := seq(|tags|, i requires 0 <= i < |tags| => repository + ":" + tags[i]);
    FilterMapKeepsAll(tags, TagReference(repository, registry), refs);
  }
}
