/**
 * The argument normalisers of `python/tools/docker_publish.py`: `_to_bool`, `_normalize_kv_pairs`,
 * `_normalize_collection`, `_clean_path_segment` and `_truncate`. Each turns a loosely-typed keyword
 * argument into a canonical value and never fails.
 */
module Normalize {
  import opened Text
  import opened Collections
  import opened PyValue

  // ---------------------------------------------------------------- _to_bool

  const TrueWords: set<string> := {"1", "true", "yes", "y", "on"}
  const FalseWords: set<string> := {"0", "false", "no", "n", "off"}

  /** `_to_bool(value, default)`: Python floats are not modelled. */
  function ToBool(value: Raw, default: bool): (r: bool)
    ensures value.RBool? ==> r == value.b
    ensures value.RInt? ==> r == (value.i != 0)
    ensures value.RNone? || value.RList? || value.RDict? ==> r == default
  {
    match value
    case RBool(b) => b
    case RInt(i) => i != 0
    case RStr(s) => ToBoolWord(Lower(Strip(s)), default)
    case _ => default
  }

  /** How `_to_bool` reads a stripped, lower-cased string. */
  function ToBoolWord(normalized: string, default: bool): bool {
    if normalized in TrueWords then true
    else if normalized in FalseWords then false
    else default
  }

  /** A string that is none of the words, in any case and with any padding, gives the default. */
  lemma ToBoolOtherText(s: string, default: bool)
    requires Lower(Strip(s)) !in TrueWords + FalseWords
    ensures ToBool(RStr(s), default) == default
  {
  }

  /**
   * A recognised word in any mix of upper and lower case, with any whitespace around it, reads as
   * true exactly when it is one of the true words.
   */
  lemma ToBoolSpellings(pre: string, word: string, post: string, default: bool)
    requires AllIn(pre, Whitespace) && AllIn(post, Whitespace)
    requires Lower(word) in TrueWords + FalseWords
    ensures ToBool(RStr(pre + word + post), default) == (Lower(word) in TrueWords)
  {
    WordTrimmed(word);
    TrimPadded(pre, word, post, Whitespace);
  }

  /** A spelling of one of the words has no whitespace at either end. */
  lemma WordTrimmed(word: string)
    requires Lower(word) in TrueWords + FalseWords
    ensures Trimmed(word, Whitespace)
  {
    WordEnds(Lower(word));
    EndsNotBlank(word);
  }

  /** Every word starts and ends with a digit or a lower-case letter. */
  lemma WordEnds(w: string)
    requires w in TrueWords + FalseWords
    ensures w != [] && w[0] in "1tyo0fn" && w[|w| - 1] in "1esyn0of"
  {
  }

  lemma EndsNotBlank(word: string)
    requires word != [] && LowerChar(word[0]) in "1tyo0fn" && LowerChar(word[|word| - 1]) in "1esyn0of"
    ensures Trimmed(word, Whitespace)
  {
  }

  /** What Python prints for a bool (`str(True)`, `str(False)`) reads back as that bool. */
  lemma ToBoolReadsPrintedBool(b: bool, default: bool)
    ensures ToBool(RStr(Str(RBool(b))), default) == b
  {
    var printed := if b then "True" else "False";
    assert Str(RBool(b)) == printed;
    PrintedBools();
    ToBoolReadsWord(printed, default);
  }

  /** `True` and `False` have no surrounding whitespace and lower-case to `true` and `false`. */
  lemma PrintedBools()
    ensures Trimmed("True", Whitespace) && Trimmed("False", Whitespace)
    ensures Lower("True") == "true" && Lower("False") == "false"
  {
  }

  /** A word without surrounding whitespace is read through its lower-case form alone. */
  lemma ToBoolReadsWord(word: string, default: bool)
    requires Trimmed(word, Whitespace)
    ensures ToBool(RStr(word), default) == ToBoolWord(Lower(word), default)
  {
    TrimPadded([], word, [], Whitespace);
    assert [] + word + [] == word;
  }

  // ---------------------------------------------------------------- _normalize_kv_pairs

  /** A Python `dict[str, str]`: its items in insertion order, each key at most once. */
  type Pairs = seq<(string, string)>

  function Keys(m: Pairs): seq<string> {
    seq(|m|, i requires 0 <= i < |m| => m[i].0)
  }

  /** `m.get(key)`. */
  function Lookup(m: Pairs, key: string): Option<string> {
    if m == [] then None else if m[0].0 == key then Some(m[0].1) else Lookup(m[1..], key)
  }

  /** `m[key] = value`: an existing key keeps its place and takes the new value, a new key goes last. */
  function Put(m: Pairs, key: string, value: string): (r: Pairs)
    ensures Keys(r) == if key in Keys(m) then Keys(m) else Keys(m) + [key]
    ensures Lookup(r, key) == Some(value)
    ensures forall k :: k != key ==> Lookup(r, k) == Lookup(m, k)
  {
    if m == [] then [(key, value)]
    else if m[0].0 == key then
      var r := [(key, value)] + m[1..];
      KeysCons(m[0], m[1..]);
      KeysCons((key, value), m[1..]);
      assert m == [m[0]] + m[1..] && r[1..] == m[1..];
      r
    else
      var rest := Put(m[1..], key, value);
      var r := [m[0]] + rest;
      KeysCons(m[0], m[1..]);
      KeysCons(m[0], rest);
      assert m == [m[0]] + m[1..] && r[1..] == rest;
      r
  }

  lemma KeysCons(p: (string, string), m: Pairs)
    ensures Keys([p] + m) == [p.0] + Keys(m)
  {
  }

  /** The dict that the assignments `ps` build when applied in order to `{}`. */
  function Assign(ps: Pairs): (r: Pairs)
    ensures Distinct(Keys(r))
    decreases |ps|
  {
    if ps == [] then []
    else
      var m := Assign(ps[..|ps| - 1]);
      var key := ps[|ps| - 1].0;
      var r := Put(m, key, ps[|ps| - 1].1);
      if key in Keys(m) then r
      else DistinctAppend(Keys(m), key); r
  }

  /** One more assignment is one more `Put`. */
  lemma AssignStep(ps: Pairs, key: string, value: string)
    ensures Assign(ps + [(key, value)]) == Put(Assign(ps), key, value)
  {
    assert (ps + [(key, value)])[..|ps|] == ps;
  }

  /** The value written by the last of the assignments `ps` to `key`, if any. */
  function LastWrite(ps: Pairs, key: string): Option<string>
    decreases |ps|
  {
    if ps == [] then None
    else if ps[|ps| - 1].0 == key then Some(ps[|ps| - 1].1)
    else LastWrite(ps[..|ps| - 1], key)
  }

  /** Last write wins: the dict holds, under each key, the value of the last assignment to it. */
  lemma {:induction false} AssignLastWriteWins(ps: Pairs, key: string)
    ensures Lookup(Assign(ps), key) == LastWrite(ps, key)
    decreases |ps|
  {
    if ps != [] {
      AssignLastWriteWins(ps[..|ps| - 1], key);
    }
  }

  /** The dict's keys are the assigned keys in the order of their first assignment. */
  lemma {:induction false} AssignKeyOrder(ps: Pairs)
    ensures Keys(Assign(ps)) == Dedup(Keys(ps))
    decreases |ps|
  {
    if ps != [] {
      var init, last := ps[..|ps| - 1], ps[|ps| - 1];
      AssignKeyOrder(init);
      var keys := Keys(ps);
      assert keys[..|keys| - 1] == Keys(init) && keys[|keys| - 1] == last.0;
      assert Assign(ps) == Put(Assign(init), last.0, last.1);
      DedupSpec(Keys(init));
      assert last.0 in Dedup(Keys(init)) <==> last.0 in Keys(init);
    }
  }

  /** `key, value = item.split("=", 1)` with both halves stripped. */
  function SplitAssignment(item: string): (string, string)
    requires '=' in item
  {
    var i := IndexOf(item, '=');
    (Strip(item[..i]), Strip(item[i + 1..]))
  }

  /** The split is at the first `=`: the key holds none, the value may hold more. */
  lemma SplitAssignmentAt(key: string, value: string)
    requires '=' !in key
    ensures '=' in key + "=" + value
    ensures SplitAssignment(key + "=" + value) == (Strip(key), Strip(value))
  {
    var item := key + "=" + value;
    assert item[|key|] == '=';
    IndexOfAt(item, '=', |key|);
    assert item[..|key|] == key && item[|key| + 1..] == value;
  }

  /** What one list item assigns: a `str` holding `=`, split at its first `=`; anything else nothing. */
  function ItemAssignment(item: Raw): Option<(string, string)> {
    if item.RStr? && '=' in item.s then Some(SplitAssignment(item.s)) else None
  }

  /** What one piece of a comma-separated string assigns once stripped. */
  function PieceAssignment(piece: string): Option<(string, string)> {
    var item := Strip(piece);
    if '=' in item then Some(SplitAssignment(item)) else None
  }

  /** The assignments a list makes, in order. */
  function ListAssignments(items: seq<Raw>): Pairs {
    FilterMap(items, ItemAssignment)
  }

  /** The assignments the pieces of a comma-separated string make, in order. */
  function TextAssignments(pieces: seq<string>): Pairs {
    FilterMap(pieces, PieceAssignment)
  }

  /** The assignments of `{str(key): str(value) for key, value in raw.items()}`. */
  function DictAssignments(entries: seq<(Raw, Raw)>): (r: Pairs)
    ensures |r| == |entries|
    ensures forall i :: 0 <= i < |entries| ==> r[i] == (Str(entries[i].0), Str(entries[i].1))
  {
    seq(|entries|, i requires 0 <= i < |entries| => (Str(entries[i].0), Str(entries[i].1)))
  }

  function Assignments(raw: Raw): Pairs {
    match raw
    case RDict(entries) => DictAssignments(entries)
    case RList(items) => ListAssignments(items)
    case RStr(s) => TextAssignments(Split(s, ','))
    case _ => []
  }

  /** What `_normalize_kv_pairs(raw)` returns. */
  function KvPairs(raw: Raw): (r: Pairs)
    ensures Distinct(Keys(r))
    ensures !(raw.RDict? || raw.RList? || raw.RStr?) ==> r == []
  {
    Assign(Assignments(raw))
  }

  /** `_normalize_kv_pairs(raw)`: fills the result dict item by item. */
  method NormalizeKvPairs(raw: Raw) returns (result: Pairs)
    ensures result == KvPairs(raw)
  {
    match raw {
      case RDict(entries) =>
        result := Assign(DictAssignments(entries));
      case RList(items) =>
        result := AssignItems(items);
      case RStr(s) =>
        result := AssignPieces(Split(s, ','));
      case _ =>
        result := [];
    }
  }

  /** The loop over a list: every `str` item holding `=` is split and assigned. */
  method AssignItems(items: seq<Raw>) returns (result: Pairs)
    ensures result == Assign(ListAssignments(items))
  {
    result := [];
    for i := 0 to |items|
      invariant result == Assign(ListAssignments(items[..i]))
    {
      FilterMapStep(items, i, ItemAssignment);
      var item := items[i];
      if item.RStr? && '=' in item.s {
        var (key, value) := SplitAssignment(item.s);
        AssignStep(ListAssignments(items[..i]), key, value);
        result := Put(result, key, value);
      }
    }
    assert items[..|items|] == items;
  }

  /** The loop over the pieces of a string: every stripped piece holding `=` is split and assigned. */
  method AssignPieces(pieces: seq<string>) returns (result: Pairs)
    ensures result == Assign(TextAssignments(pieces))
  {
    result := [];
    for i := 0 to |pieces|
      invariant result == Assign(TextAssignments(pieces[..i]))
    {
      FilterMapStep(pieces, i, PieceAssignment);
      var item := Strip(pieces[i]);
      if '=' in item {
        var (key, value) := SplitAssignment(item);
        AssignStep(TextAssignments(pieces[..i]), key, value);
        result := Put(result, key, value);
      }
    }
    assert pieces[..|pieces|] == pieces;
  }

  /**
   * Later duplicates overwrite earlier ones: every key maps to the value of its last assignment,
   * and keys appear in the order of their first assignment.
   */
  lemma KvPairsLastWriteWins(raw: Raw, key: string)
    ensures Lookup(KvPairs(raw), key) == LastWrite(Assignments(raw), key)
    ensures Keys(KvPairs(raw)) == Dedup(Keys(Assignments(raw)))
  {
    AssignLastWriteWins(Assignments(raw), key);
    AssignKeyOrder(Assignments(raw));
  }

  /**
   * For a list, the assignments are exactly its `str` items that hold `=`, each split at its
   * first `=`: every other item is dropped.
   */
  lemma ListAssignmentsFrom(items: seq<Raw>, p: (string, string))
    ensures p in ListAssignments(items)
        <==> exists i :: 0 <= i < |items| && ItemAssignment(items[i]) == Some(p)
  {
    FilterMapIn(items, ItemAssignment, p);
  }

  /** Stripping an item first changes neither whether it holds `=` nor how it splits. */
  lemma StripKeepsAssignment(item: string)
    ensures '=' in Strip(item) <==> '=' in item
    ensures '=' in item ==> SplitAssignment(Strip(item)) == SplitAssignment(item)
  {
    StripKeeps(item, '=');
    if '=' in item {
      var pre, post := TrimSplit(item, Whitespace);
      SplitIgnoresPadding(pre, Strip(item), post);
    }
  }

  /** Whitespace around an assignment does not move its first `=` and is stripped from both halves. */
  lemma SplitIgnoresPadding(pre: string, core: string, post: string)
    requires AllIn(pre, Whitespace) && AllIn(post, Whitespace) && '=' in core
    ensures '=' in pre + core + post
    ensures SplitAssignment(pre + core + post) == SplitAssignment(core)
  {
    var item := pre + core + post;
    var j := IndexOf(core, '=');
    var i := |pre| + j;
    var key, value := core[..j], core[j + 1..];
    SliceAround(item, pre, core, post, j);
    assert item[..i] == pre + key && item[i + 1..] == value + post;
    assert forall k :: 0 <= k < |pre| ==> item[k] in Whitespace;
    IndexOfAt(item, '=', i);
    SplitAssignmentAtIndex(item, i);
    SplitAssignmentAtIndex(core, j);
    StripIgnoresPrefix(pre, key);
    StripIgnoresSuffix(value, post);
  }

  lemma SplitAssignmentAtIndex(item: string, i: nat)
    requires '=' in item && IndexOf(item, '=') == i
    ensures SplitAssignment(item) == (Strip(item[..i]), Strip(item[i + 1..]))
  {
  }

  /** Slicing `pre + core + post` around a position inside `core`. */
  lemma SliceAround(s: string, pre: string, core: string, post: string, j: nat)
    requires s == pre + core + post && j < |core|
    ensures s[|pre| + j] == core[j]
    ensures forall k :: |pre| <= k < |pre| + |core| ==> s[k] == core[k - |pre|]
    ensures s[..|pre| + j] == pre + core[..j]
    ensures s[|pre| + j + 1..] == core[j + 1..] + post
  {
    assert s[..|pre| + j] == pre + core[..j];
    assert s[|pre| + j + 1..] == core[j + 1..] + post;
  }

  /** The key of an assignment holds no `=`: it is what precedes the first `=`. */
  lemma SplitAssignmentKey(item: string)
    requires '=' in item
    ensures '=' !in SplitAssignment(item).0
  {
    var i := IndexOf(item, '=');
    StripKeeps(item[..i], '=');
  }

  /** A piece of a string assigns what the same text as a list item assigns. */
  lemma {:induction false} TextMatchesList(pieces: seq<string>)
    ensures TextAssignments(pieces) == ListAssignments(Strs(pieces))
  {
    forall i | 0 <= i < |pieces|
      ensures PieceAssignment(pieces[i]) == ItemAssignment(Strs(pieces)[i])
    {
      StripKeepsAssignment(pieces[i]);
    }
    FilterMapPointwise(pieces, PieceAssignment, Strs(pieces), ItemAssignment);
  }

  /**
   * The comma-joined string form and the list form of the same `key=value` items (none holding a
   * comma) normalise to the same dict.
   */
  lemma KvTextMatchesList(items: seq<string>)
    requires forall i :: 0 <= i < |items| ==> ',' !in items[i]
    ensures KvPairs(RStr(Join(",", items))) == KvPairs(RList(Strs(items)))
  {
    TextAssignmentsMatchList(items);
  }

  /** The assignments behind `KvTextMatchesList`: both forms yield the same pairs in the same order. */
  lemma TextAssignmentsMatchList(items: seq<string>)
    requires forall i :: 0 <= i < |items| ==> ',' !in items[i]
    ensures Assignments(RStr(Join(",", items))) == Assignments(RList(Strs(items)))
  {
    AssignmentsOfText(Join(",", items));
    AssignmentsOfList(Strs(items));
    if items == [] {
      EmptyTextAssignsNothing();
    } else {
      SplitJoin(items, ',');
      TextMatchesList(items);
    }
  }

  lemma EmptyTextAssignsNothing()
    ensures TextAssignments(Split("", ',')) == []
  {
    assert Split("", ',') == [""];
    assert PieceAssignment("") == None;
  }

  lemma AssignmentsOfText(s: string)
    ensures Assignments(RStr(s)) == TextAssignments(Split(s, ','))
  {
  }

  lemma AssignmentsOfList(items: seq<Raw>)
    ensures Assignments(RList(items)) == ListAssignments(items)
  {
  }

  /** The entry is a pair of `str` that `key=value` spells, key without `=`, both halves stripped. */
  predicate PrintsAs(entry: (Raw, Raw), item: Raw) {
    && entry.0.RStr? && entry.1.RStr?
    && '=' !in entry.0.s && Strip(entry.0.s) == entry.0.s && Strip(entry.1.s) == entry.1.s
    && item == RStr(entry.0.s + "=" + entry.1.s)
  }

  /**
   * A dict of `str` keys without `=` and of already stripped keys and values normalises like the list
   * of its `key=value` items.
   */
  lemma KvDictMatchesList(entries: seq<(Raw, Raw)>, items: seq<Raw>)
    requires |entries| == |items|
    requires forall i :: 0 <= i < |entries| ==> PrintsAs(entries[i], items[i])
    ensures KvPairs(RDict(entries)) == KvPairs(RList(items))
  {
    PrintedAssignments(entries, items);
    AssignmentsOfDict(entries);
  }

  lemma AssignmentsOfDict(entries: seq<(Raw, Raw)>)
    ensures Assignments(RDict(entries)) == DictAssignments(entries)
  {
  }

  lemma PrintedAssignments(entries: seq<(Raw, Raw)>, items: seq<Raw>)
    requires |entries| == |items|
    requires forall i :: 0 <= i < |entries| ==> PrintsAs(entries[i], items[i])
    ensures ListAssignments(items) == DictAssignments(entries)
  {
    var d := DictAssignments(entries);
    forall i | 0 <= i < |items|
      ensures ItemAssignment(items[i]) == Some(d[i])
    {
      ItemPrintsAs(entries[i], items[i]);
    }
    FilterMapKeepsAll(items, ItemAssignment, d);
  }

  lemma ItemPrintsAs(entry: (Raw, Raw), item: Raw)
    requires PrintsAs(entry, item)
    ensures ItemAssignment(item) == Some((Str(entry.0), Str(entry.1)))
  {
    SplitAssignmentAt(entry.0.s, entry.1.s);
  }

  /** Keys normalised from a list or a comma-separated string never hold `=`. */
  lemma KvKeysHaveNoEquals(raw: Raw)
    requires raw.RList? || raw.RStr?
    ensures forall i :: 0 <= i < |KvPairs(raw)| ==> '=' !in KvPairs(raw)[i].0
  {
    var ps := Assignments(raw);
    if raw.RStr? {
      TextMatchesList(Split(raw.s, ','));
      ListKeysHaveNoEquals(Strs(Split(raw.s, ',')));
    } else {
      ListKeysHaveNoEquals(raw.items);
    }
    AssignKeyOrder(ps);
    DedupSpec(Keys(ps));
    forall i | 0 <= i < |KvPairs(raw)|
      ensures '=' !in KvPairs(raw)[i].0
    {
      assert Keys(KvPairs(raw))[i] == KvPairs(raw)[i].0;
      var j :| 0 <= j < |Keys(ps)| && Keys(ps)[j] == Keys(KvPairs(raw))[i];
      assert ps[j].0 == Keys(ps)[j];
    }
  }

  lemma ListKeysHaveNoEquals(items: seq<Raw>)
    ensures forall j :: 0 <= j < |ListAssignments(items)| ==> '=' !in ListAssignments(items)[j].0
  {
    var ps := ListAssignments(items);
    forall j | 0 <= j < |ps|
      ensures '=' !in ps[j].0
    {
      FilterMapIn(items, ItemAssignment, ps[j]);
      var i :| 0 <= i < |items| && ItemAssignment(items[i]) == Some(ps[j]);
      SplitAssignmentKey(items[i].s);
    }
  }

  // ---------------------------------------------------------------- _normalize_collection

  /** `item.strip()`, kept when not empty. */
  function CleanItem(item: string): Option<string> {
    var t := Strip(item);
    if t != "" then Some(t) else None
  }

  /** `[item.strip() for item in items if item.strip()]`. */
  function CleanItems(items: seq<string>): seq<string> {
    FilterMap(items, CleanItem)
  }

  /** Every item kept is non-empty and already stripped. */
  lemma CleanItemsClean(items: seq<string>)
    ensures forall j :: 0 <= j < |CleanItems(items)| ==> CleanItems(items)[j] != ""
    ensures forall j :: 0 <= j < |CleanItems(items)| ==> Strip(CleanItems(items)[j]) == CleanItems(items)[j]
  {
    var r := CleanItems(items);
    forall j | 0 <= j < |r|
      ensures r[j] != "" && Strip(r[j]) == r[j]
    {
      FilterMapIn(items, CleanItem, r[j]);
      var i :| 0 <= i < |items| && CleanItem(items[i]) == Some(r[j]);
      StripIdempotent(items[i]);
    }
  }

  /** `_normalize_collection(raw)`: Python sets are not modelled. */
  function NormalizeCollection(raw: Raw): (r: seq<string>)
    ensures !Truthy(raw) ==> r == []
    ensures raw.RDict? ==> r == StrEach(Values(raw.entries))
    ensures (raw.RBool? || raw.RInt?) && Truthy(raw) ==> r == [Strip(Str(raw))]
  {
    if !Truthy(raw) then []
    else
      match raw
      case RStr(s) => CleanItems(Split(s, ','))
      case RDict(entries) => StrEach(Values(entries))
      case RList(items) => CleanItems(StrEach(items))
      case _ => [Strip(Str(raw))]
  }

  /** A string or a list normalises to non-empty, stripped items. */
  lemma CollectionItemsClean(raw: Raw)
    requires raw.RStr? || raw.RList?
    ensures forall j :: 0 <= j < |NormalizeCollection(raw)| ==> NormalizeCollection(raw)[j] != ""
    ensures forall j :: 0 <= j < |NormalizeCollection(raw)| ==>
      Strip(NormalizeCollection(raw)[j]) == NormalizeCollection(raw)[j]
  {
    if Truthy(raw) {
      if raw.RStr? {
        CleanItemsClean(Split(raw.s, ','));
      } else {
        CleanItemsClean(StrEach(raw.items));
      }
    }
  }

  /** A list, empty or not, normalises to its cleaned `str` forms. */
  lemma CollectionOfList(items: seq<Raw>)
    ensures NormalizeCollection(RList(items)) == CleanItems(StrEach(items))
  {
    if items == [] {
      assert StrEach(items) == [];
    }
  }

  /** Normalising a list keeps its order: the parts of a concatenation normalise separately. */
  lemma CollectionKeepsOrder(a: seq<Raw>, b: seq<Raw>)
    ensures NormalizeCollection(RList(a + b)) == NormalizeCollection(RList(a)) + NormalizeCollection(RList(b))
  {
    assert StrEach(a + b) == StrEach(a) + StrEach(b);
    FilterMapAppend(StrEach(a), StrEach(b), CleanItem);
    CollectionOfList(a);
    CollectionOfList(b);
    CollectionOfList(a + b);
  }

  /** Items that are already stripped and non-empty pass through unchanged. */
  lemma CleanItemsKeepsClean(items: seq<string>)
    requires forall i :: 0 <= i < |items| ==> items[i] != "" && Strip(items[i]) == items[i]
    ensures CleanItems(items) == items
  {
    FilterMapKeepsAll(items, CleanItem, items);
  }

  /** Normalising a normalised string or list again (as a list) changes nothing. */
  lemma CollectionIdempotent(raw: Raw)
    requires raw.RStr? || raw.RList?
    ensures NormalizeCollection(RList(Strs(NormalizeCollection(raw)))) == NormalizeCollection(raw)
  {
    var r := NormalizeCollection(raw);
    CollectionItemsClean(raw);
    CleanItemsKeepsClean(r);
    assert StrEach(Strs(r)) == r;
    CollectionOfList(Strs(r));
  }

  /**
   * The comma-joined string form and the list form of the same items (none holding a comma)
   * normalise to the same list.
   */
  lemma CollectionTextMatchesList(items: seq<string>)
    requires forall i :: 0 <= i < |items| ==> ',' !in items[i]
    ensures NormalizeCollection(RStr(Join(",", items))) == NormalizeCollection(RList(Strs(items)))
  {
    CollectionOfText(Join(",", items));
    CollectionOfList(Strs(items));
    assert StrEach(Strs(items)) == items;
    if items == [] {
      EmptyPieceDropped();
    } else {
      SplitJoin(items, ',');
    }
  }

  /** A string, empty or not, normalises to its cleaned comma-separated pieces. */
  lemma CollectionOfText(s: string)
    ensures NormalizeCollection(RStr(s)) == CleanItems(Split(s, ','))
  {
    if s == "" {
      EmptyPieceDropped();
    }
  }

  lemma EmptyPieceDropped()
    ensures Split("", ',') == [""] && CleanItems([""]) == []
  {
    assert CleanItem("") == None;
  }

  // ---------------------------------------------------------------- _clean_path_segment

  /** `_clean_path_segment(segment)`: strips whitespace, then slashes. */
  function CleanPathSegment(segment: Raw): (r: string)
    ensures segment.RNone? ==> r == ""
    ensures r == [] || (r[0] != '/' && r[|r| - 1] != '/')
  {
    if segment.RNone? then "" else Trim(Strip(Str(segment)), {'/'})
  }

  /** A segment with neither whitespace nor a slash at either end is kept as it is. */
  lemma CleanPathSegmentKeeps(s: string)
    requires Trimmed(s, Whitespace) && Trimmed(s, {'/'})
    ensures CleanPathSegment(RStr(s)) == s
  {
    TrimPadded([], s, [], Whitespace);
    TrimPadded([], s, [], {'/'});
    assert [] + s + [] == s;
  }

  /** The defaults of the registry, username and project arguments are clean segments already. */
  lemma DefaultSegments()
    ensures CleanPathSegment(RStr("ghcr.io")) == "ghcr.io"
    ensures CleanPathSegment(RStr("bkhieb")) == "bkhieb"
    ensures CleanPathSegment(RStr("trailherotv")) == "trailherotv"
  {
    LetterSegment("ghcr.io");
    LetterSegment("bkhieb");
    LetterSegment("trailherotv");
  }

  /** A segment that starts and ends with a lower-case letter is clean already. */
  lemma LetterSegment(s: string)
    requires s != [] && 'a' <= s[0] <= 'z' && 'a' <= s[|s| - 1] <= 'z'
    ensures CleanPathSegment(RStr(s)) == s
  {
    LetterNotBlank(s[0]);
    LetterNotBlank(s[|s| - 1]);
    CleanPathSegmentKeeps(s);
  }

  lemma LetterNotBlank(c: char)
    requires 'a' <= c <= 'z'
    ensures c !in Whitespace && c !in {'/'}
  {
  }

  /** Slashes and whitespace around a clean segment are removed, whitespace outside the slashes. */
  lemma CleanPathSegmentRemoves(ws1: string, slashes1: string, s: string, slashes2: string, ws2: string)
    requires AllIn(ws1, Whitespace) && AllIn(ws2, Whitespace)
    requires AllIn(slashes1, {'/'}) && AllIn(slashes2, {'/'})
    requires Trimmed(s, Whitespace) && Trimmed(s, {'/'})
    ensures CleanPathSegment(RStr(ws1 + slashes1 + s + slashes2 + ws2)) == s
  {
    var inner := slashes1 + s + slashes2;
    assert Trimmed(inner, Whitespace) by {
      if inner != [] {
        assert inner[0] == '/' || inner[0] == s[0];
        assert inner[|inner| - 1] == '/' || inner[|inner| - 1] == s[|s| - 1];
      }
    }
    assert ws1 + slashes1 + s + slashes2 + ws2 == ws1 + inner + ws2;
    TrimPadded(ws1, inner, ws2, Whitespace);
    TrimPadded(slashes1, s, slashes2, {'/'});
  }

  // ---------------------------------------------------------------- _truncate

  /** `_truncate(text, limit)`: the last `limit` characters, as `text[-limit:]`. */
  function Truncate(text: string, limit: nat): (r: string)
    ensures |r| <= |text| && r == text[|text| - |r|..]
    ensures |text| <= limit ==> r == text
    ensures 0 < limit ==> |r| == if |text| <= limit then |text| else limit
    ensures limit == 0 ==> r == text
  {
    if |text| <= limit then text else SliceFrom(text, -(limit as int))
  }
}
