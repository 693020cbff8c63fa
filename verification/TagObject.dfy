/** src/utils/tag-object.ts: a payload, possibly cyclic, is flattened into span tags. */
module TagObject {
  import opened Wrappers
  import opened Sequences
  import opened JsStrings

  /** The text of a number or boolean in JavaScript: at most 25 characters, so never cut. */
  type ShortText = t: JsString | |t| <= 25 && t != Units("redacted") witness []

  datatype Value =
    | Null | Undefined
    | Str(s: JsString) | Num(text: ShortText) | Bool(b: bool)
    | Obj(ref: nat)  // an object or array; shared and cyclic references have equal `ref`
    | Other          // a function, symbol or bigint

  /** What the code asks of its surroundings: `Object.entries`, `JSON.parse` (None: it
      throws) and `JSON.stringify` (None: it throws or gives undefined). */
  datatype World = World(
    entries: nat -> seq<(JsString, Value)>,
    parse: JsString -> Option<Value>,
    stringify: Value -> Option<JsString>)

  datatype TagValue = NullTag | Text(text: JsString)
  datatype Tag = Tag(key: JsString, value: TagValue)

  const DOT: CodeUnit := 46
  const MAX_LENGTH: nat := 5000

  function Authorization(): JsString { Units("authorization") }
  function XAuthorization(): JsString { Units("x-authorization") }
  function Password(): JsString { Units("password") }
  function Token(): JsString { Units("token") }
  function Redacted(): JsString { Units("redacted") }

  predicate Redactable(segment: JsString) {
    segment == Authorization() || segment == XAuthorization() || segment == Password() || segment == Token()
  }

  /** `k.split(".").pop() || k` */
  function SplitKey(k: JsString): JsString {
    var parts := Split(k, DOT);
    var last := parts[|parts| - 1];
    if last == [] then k else last
  }

  function RedactVal(k: JsString, v: JsString): JsString {
    if Redactable(SplitKey(k)) then Redacted() else v
  }

  function Truncate(s: JsString): (r: JsString)
    ensures r <= s && |r| <= MAX_LENGTH && (|s| <= MAX_LENGTH ==> r == s)
  {
    if |s| <= MAX_LENGTH then s else s[..MAX_LENGTH]
  }

  function BoolText(b: bool): ShortText {
    if b then Units("true") else Units("false")
  }

  /** The depth that is left. */
  function Budget(depth: int, maxDepth: int): nat {
    if depth < maxDepth then maxDepth - depth else 0
  }

  /** The tags set, in order. The recursion ends on cyclic payloads too: every step down,
      into an object or into a parsed string, takes one unit of depth. */
  function Flatten(w: World, key: JsString, obj: Value, depth: int, maxDepth: int): seq<Tag>
    decreases maxDepth - depth, 0
  {
    if obj.Null? then [Tag(key, NullTag)]
    else if depth >= maxDepth then
      match w.stringify(obj)
      case None => []
      case Some(text) => [Tag(key, Text(RedactVal(key, Truncate(text))))]
    else
      match obj
      case Str(s) =>
        (match w.parse(s)
         case None => [Tag(key, Text(RedactVal(key, Truncate(s))))]
         case Some(parsed) => Flatten(w, key, parsed, depth + 1, maxDepth))
      case Num(text) => [Tag(key, Text(text))]
      case Bool(b) => [Tag(key, Text(BoolText(b)))]
      case Obj(ref) => FlattenEntries(w, key, w.entries(ref), depth + 1, maxDepth)
      case _ => []
  }

  function FlattenEntries(w: World, key: JsString, entries: seq<(JsString, Value)>, depth: int, maxDepth: int): seq<Tag>
    decreases maxDepth - depth, 1 + |entries|
  {
    if entries == [] then []
    else Flatten(w, key + ([DOT] + entries[0].0), entries[0].1, depth, maxDepth)
         + FlattenEntries(w, key, entries[1..], depth, maxDepth)
  }

  // ---------- the payload as a finite tree ----------

  datatype Leaf =
    | NullLeaf
    | RawString(s: JsString)   // a string that is not JSON
    | CutOff(text: JsString)   // what is stringified at the depth limit
    | Plain(printed: ShortText) // a number or a boolean

  /** The part of a payload within a depth budget, strings of JSON replaced by what they
      stand for. */
  datatype Unfolding = Nothing | LeafNode(leaf: Leaf) | Branch(fields: seq<Field>)

  datatype Field = Field(key: JsString, value: Unfolding)

  function Unfold(w: World, obj: Value, budget: nat): Unfolding
    decreases budget, 0
  {
    if obj.Null? then LeafNode(NullLeaf)
    else if budget == 0 then
      match w.stringify(obj)
      case None => Nothing
      case Some(text) => LeafNode(CutOff(text))
    else
      match obj
      case Str(s) =>
        (match w.parse(s)
         case None => LeafNode(RawString(s))
         case Some(parsed) => Unfold(w, parsed, budget - 1))
      case Num(text) => LeafNode(Plain(text))
      case Bool(b) => LeafNode(Plain(BoolText(b)))
      case Obj(ref) => Branch(UnfoldFields(w, w.entries(ref), budget - 1))
      case _ => Nothing
  }

  function UnfoldFields(w: World, entries: seq<(JsString, Value)>, budget: nat): seq<Field>
    decreases budget, 1 + |entries|
  {
    if entries == [] then []
    else [Field(entries[0].0, Unfold(w, entries[0].1, budget))] + UnfoldFields(w, entries[1..], budget)
  }

  /** A leaf with the object keys that lead to it. */
  datatype Place = Place(path: seq<JsString>, leaf: Leaf)

  function Leaves(u: Unfolding): seq<Place> {
    match u
    case Nothing => []
    case LeafNode(leaf) => [Place([], leaf)]
    case Branch(fields) => LeavesOf(fields)
  }

  function LeavesOf(fields: seq<Field>): seq<Place>
    decreases fields
  {
    if fields == [] then []
    else
      var first := match fields[0].value
        case Nothing => []
        case LeafNode(leaf) => [Place([], leaf)]
        case Branch(deeper) => LeavesOf(deeper);
      Below(fields[0].key, first) + LeavesOf(fields[1..])
  }

  function Below(key: JsString, places: seq<Place>): (r: seq<Place>)
    ensures |r| == |places|
    ensures forall i :: 0 <= i < |places| ==> r[i] == Place([key] + places[i].path, places[i].leaf)
  {
    seq(|places|, i requires 0 <= i < |places| => Place([key] + places[i].path, places[i].leaf))
  }

  function KeyAt(key: JsString, path: seq<JsString>): JsString
    decreases |path|
  {
    if path == [] then key else KeyAt(key + ([DOT] + path[0]), path[1..])
  }

  /** What is reported for a leaf: only strings and cut-off values can be redacted. */
  function Report(key: JsString, leaf: Leaf): TagValue {
    match leaf
    case NullLeaf => NullTag
    case RawString(s) => Text(RedactVal(key, Truncate(s)))
    case CutOff(text) => Text(RedactVal(key, Truncate(text)))
    case Plain(text) => Text(text)
  }

  function TagAt(key: JsString, place: Place): Tag {
    var full := KeyAt(key, place.path);
    Tag(full, Report(full, place.leaf))
  }

  function TagsAt(key: JsString, places: seq<Place>): (tags: seq<Tag>)
    ensures |tags| == |places|
    ensures forall i :: 0 <= i < |places| ==> tags[i] == TagAt(key, places[i])
  {
    seq(|places|, i requires 0 <= i < |places| => TagAt(key, places[i]))
  }

  lemma TagsBelow(key: JsString, field: JsString, places: seq<Place>)
    ensures TagsAt(key, Below(field, places)) == TagsAt(key + ([DOT] + field), places)
  {
    forall i | 0 <= i < |places|
      ensures TagAt(key, Below(field, places)[i]) == TagAt(key + ([DOT] + field), places[i])
    {
      assert ([field] + places[i].path)[1..] == places[i].path;
    }
  }

  lemma TagsAtConcat(key: JsString, a: seq<Place>, b: seq<Place>)
    ensures TagsAt(key, a + b) == TagsAt(key, a) + TagsAt(key, b)
  {
  }

  /** The payload is looked into: a string of JSON or an object, with budget left. */
  predicate LooksInside(w: World, obj: Value, budget: nat) {
    budget > 0 && ((obj.Str? && w.parse(obj.s).Some?) || obj.Obj?)
  }

  lemma FlattenLeaf(w: World, key: JsString, obj: Value, depth: int, maxDepth: int)
    requires !LooksInside(w, obj, Budget(depth, maxDepth))
    ensures Flatten(w, key, obj, depth, maxDepth) == TagsAt(key, Leaves(Unfold(w, obj, Budget(depth, maxDepth))))
  {
  }

  lemma FlattenParsed(w: World, key: JsString, s: JsString, depth: int, maxDepth: int)
    requires depth < maxDepth && w.parse(s).Some?
    ensures Flatten(w, key, Str(s), depth, maxDepth) == Flatten(w, key, w.parse(s).value, depth + 1, maxDepth)
    ensures Unfold(w, Str(s), Budget(depth, maxDepth)) == Unfold(w, w.parse(s).value, Budget(depth + 1, maxDepth))
  {
  }

  lemma FlattenFields(w: World, key: JsString, ref: nat, depth: int, maxDepth: int)
    requires depth < maxDepth
    ensures Flatten(w, key, Obj(ref), depth, maxDepth) == FlattenEntries(w, key, w.entries(ref), depth + 1, maxDepth)
    ensures Leaves(Unfold(w, Obj(ref), Budget(depth, maxDepth)))
         == LeavesOf(UnfoldFields(w, w.entries(ref), maxDepth - (depth + 1)))
  {
  }

  /** Flattening with a growing key and a falling budget gives one tag for each leaf of the
      unfolded payload, in order, under the path that leads to it. */
  lemma {:induction false} FlattenReportsLeaves(w: World, key: JsString, obj: Value, depth: int, maxDepth: int)
    ensures Flatten(w, key, obj, depth, maxDepth) == TagsAt(key, Leaves(Unfold(w, obj, Budget(depth, maxDepth))))
    decreases maxDepth - depth, 0
  {
    if depth < maxDepth && obj.Str? && w.parse(obj.s).Some? {
      FlattenParsed(w, key, obj.s, depth, maxDepth);
      FlattenReportsLeaves(w, key, w.parse(obj.s).value, depth + 1, maxDepth);
    } else if depth < maxDepth && obj.Obj? {
      FlattenFields(w, key, obj.ref, depth, maxDepth);
      EntriesReportLeaves(w, key, w.entries(obj.ref), depth + 1, maxDepth);
    } else {
      FlattenLeaf(w, key, obj, depth, maxDepth);
    }
  }

  lemma {:induction false} EntriesReportLeaves(
    w: World, key: JsString, entries: seq<(JsString, Value)>, depth: int, maxDepth: int)
    requires depth <= maxDepth
    ensures FlattenEntries(w, key, entries, depth, maxDepth)
         == TagsAt(key, LeavesOf(UnfoldFields(w, entries, maxDepth - depth)))
    decreases maxDepth - depth, 1 + |entries|
  {
    if entries != [] {
      var field, value := entries[0].0, entries[0].1;
      var fields := UnfoldFields(w, entries, maxDepth - depth);
      var places := Leaves(Unfold(w, value, maxDepth - depth));
      FlattenReportsLeaves(w, key + ([DOT] + field), value, depth, maxDepth);
      EntriesReportLeaves(w, key, entries[1..], depth, maxDepth);
      assert fields[1..] == UnfoldFields(w, entries[1..], maxDepth - depth);
      TagsBelow(key, field, places);
      TagsAtConcat(key, Below(field, places), LeavesOf(fields[1..]));
    }
  }

  // ---------- consequences ----------

  /** Each field on the way costs one unit of depth. */
  lemma {:induction false} PathsAreBounded(w: World, obj: Value, budget: nat)
    ensures forall p :: p in Leaves(Unfold(w, obj, budget)) ==> |p.path| <= budget
    decreases budget, 0
  {
    if budget > 0 && obj.Str? && w.parse(obj.s).Some? {
      PathsAreBounded(w, w.parse(obj.s).value, budget - 1);
    } else if budget > 0 && obj.Obj? {
      FieldPathsAreBounded(w, w.entries(obj.ref), budget - 1);
    }
  }

  lemma {:induction false} FieldPathsAreBounded(w: World, entries: seq<(JsString, Value)>, budget: nat)
    ensures forall p :: p in LeavesOf(UnfoldFields(w, entries, budget)) ==> |p.path| <= budget + 1
    decreases budget, 1 + |entries|
  {
    if entries != [] {
      PathsAreBounded(w, entries[0].1, budget);
      FieldPathsAreBounded(w, entries[1..], budget);
      var fields := UnfoldFields(w, entries, budget);
      assert fields[1..] == UnfoldFields(w, entries[1..], budget);
      forall p | p in Below(entries[0].0, Leaves(Unfold(w, entries[0].1, budget))) ensures |p.path| <= budget + 1 {
      }
    }
  }

  /** `obj` is explored completely within the budget. */
  predicate Fits(w: World, obj: Value, budget: nat)
    decreases budget
  {
    obj.Null? || (budget > 0
      && (obj.Str? && w.parse(obj.s).Some? ==> Fits(w, w.parse(obj.s).value, budget - 1))
      && (obj.Obj? ==> forall e :: e in w.entries(obj.ref) ==> Fits(w, e.1, budget - 1)))
  }

  lemma {:induction false} DeepEnough(w: World, obj: Value, budget: nat, more: nat)
    requires Fits(w, obj, budget) && budget <= more
    ensures Unfold(w, obj, more) == Unfold(w, obj, budget)
    decreases budget, 0
  {
    if obj.Str? && w.parse(obj.s).Some? {
      DeepEnough(w, w.parse(obj.s).value, budget - 1, more - 1);
    } else if obj.Obj? {
      FieldsDeepEnough(w, w.entries(obj.ref), budget - 1, more - 1);
    }
  }

  lemma {:induction false} FieldsDeepEnough(w: World, entries: seq<(JsString, Value)>, budget: nat, more: nat)
    requires (forall e :: e in entries ==> Fits(w, e.1, budget)) && budget <= more
    ensures UnfoldFields(w, entries, more) == UnfoldFields(w, entries, budget)
    decreases budget, 1 + |entries|
  {
    if entries != [] {
      assert entries[0] in entries;
      DeepEnough(w, entries[0].1, budget, more);
      FieldsDeepEnough(w, entries[1..], budget, more);
    }
  }

  /** For a payload that fits, any larger limit sets the same tags: nothing was cut off. */
  lemma LargerLimitSameTags(w: World, key: JsString, obj: Value, depth: int, maxDepth: int, larger: int)
    requires maxDepth <= larger && Fits(w, obj, Budget(depth, maxDepth))
    ensures Flatten(w, key, obj, depth, larger) == Flatten(w, key, obj, depth, maxDepth)
  {
    DeepEnough(w, obj, Budget(depth, maxDepth), Budget(depth, larger));
    FlattenReportsLeaves(w, key, obj, depth, maxDepth);
    FlattenReportsLeaves(w, key, obj, depth, larger);
  }

  /** The last segment of a key, read off its end; 46 is the unit of a dot. */
  predicate EndsWithSegment(k: JsString, segment: JsString) {
    k == segment || (|k| > |segment| && k[|k| - |segment|..] == segment && k[|k| - |segment| - 1] == 46)
  }

  lemma RedactableSegmentsAreSolid(segment: JsString)
    requires Redactable(segment)
    ensures segment != [] && DOT !in segment
  {
    assert forall i :: 0 <= i < |Authorization()| ==> Authorization()[i] != DOT;
    assert forall i :: 0 <= i < |XAuthorization()| ==> XAuthorization()[i] != DOT;
    assert forall i :: 0 <= i < |Password()| ==> Password()[i] != DOT;
    assert forall i :: 0 <= i < |Token()| ==> Token()[i] != DOT;
  }

  lemma SegmentAtEnd(k: JsString, segment: JsString)
    requires DOT !in segment && EndsWithSegment(k, segment)
    ensures Split(k, DOT)[|Split(k, DOT)| - 1] == segment
  {
    SplitWithoutSeparator(segment, DOT);
    if k != segment {
      var n := |k| - |segment|;
      SplitAtSeparator(k[..n - 1], segment, DOT);
      CutAt(k, n);
      LastOfConcat(Split(k[..n - 1], DOT), segment);
    }
  }

  lemma CutAt(k: JsString, n: nat)
    requires 0 < n <= |k|
    ensures k == k[..n - 1] + ([k[n - 1]] + k[n..])
  {
  }

  lemma LastOfConcat(parts: seq<JsString>, last: JsString)
    ensures (parts + [last])[|parts + [last]| - 1] == last
  {
  }

  lemma {:induction false} LastPartIsAtEnd(k: JsString)
    ensures EndsWithSegment(k, Split(k, DOT)[|Split(k, DOT)| - 1])
  {
    if k != [] {
      LastPartIsAtEnd(k[1..]);
      var rest := Split(k[1..], DOT);
      var last := rest[|rest| - 1];
      if k[0] == DOT || |rest| > 1 {
        EndsLater(k, last);
        if k[0] != DOT && k[1..] == last {
          LastPartHasNoDot(k[1..]);
          SplitWithoutSeparator(k[1..], DOT);
        }
      } else {
        SplitOfWhole(k[1..]);
        assert k == [k[0]] + k[1..];
      }
    }
  }

  lemma EndsLater(k: JsString, segment: JsString)
    requires k != [] && EndsWithSegment(k[1..], segment)
    ensures k[0] == DOT || k[1..] != segment ==> EndsWithSegment(k, segment)
  {
    var n := |k| - |segment|;
    assert k[n..] == k[1..][n - 1..];
  }

  lemma SplitOfWhole(k: JsString)
    ensures |Split(k, DOT)| == 1 ==> Split(k, DOT) == [k]
  {
    JoinOfSplit(k, DOT);
  }

  lemma LastPartHasNoDot(k: JsString)
    ensures DOT !in Split(k, DOT)[|Split(k, DOT)| - 1]
  {
    JoinOfSplit(k, DOT);
  }

  lemma RedactedIffEndsRedactably(k: JsString)
    ensures Redactable(SplitKey(k)) <==> exists name :: Redactable(name) && EndsWithSegment(k, name)
  {
    KeyEndsWithSplitKey(k);
    if name :| Redactable(name) && EndsWithSegment(k, name) {
      RedactableSegmentsAreSolid(name);
      NameIsSplitKey(k, name);
    }
  }

  /** A key is redacted exactly when it is one of the four names or ends with a dot and one
      of them. */
  lemma RedactedIffEndsWithName(k: JsString)
    ensures Redactable(SplitKey(k)) <==>
              || EndsWithSegment(k, Units("authorization")) || EndsWithSegment(k, Units("x-authorization"))
              || EndsWithSegment(k, Units("password")) || EndsWithSegment(k, Units("token"))
  {
    RedactedIffEndsRedactably(k);
    assert Redactable(Authorization()) && Redactable(XAuthorization()) && Redactable(Password()) && Redactable(Token());
  }

  lemma KeyEndsWithSplitKey(k: JsString)
    ensures EndsWithSegment(k, SplitKey(k))
  {
    LastPartIsAtEnd(k);
  }

  lemma NameIsSplitKey(k: JsString, name: JsString)
    requires name != [] && DOT !in name && EndsWithSegment(k, name)
    ensures SplitKey(k) == name
  {
    SegmentAtEnd(k, name);
  }

  /** The tag carries "redacted" if its key asks for it, and else the first 5000 units of
      the text, or all of a shorter one. */
  predicate ReportsText(tag: Tag, text: JsString) {
    tag.value.Text?
    && if Redactable(SplitKey(tag.key)) then tag.value.text == Units("redacted")
       else tag.value.text <= text && |tag.value.text| == if |text| <= 5000 then |text| else 5000
  }

  /** What a tag says about the leaf it reports. A string that is not JSON or a cut-off value
      may be redacted and cut; null, numbers and booleans never are, not even those that were
      parsed out of a string. */
  predicate Reports(tag: Tag, key: JsString, place: Place, budget: nat) {
    && tag.key == KeyAt(key, place.path) && |place.path| <= budget
    && match place.leaf
       case NullLeaf => tag.value == NullTag
       case RawString(s) => ReportsText(tag, s)
       case CutOff(text) => ReportsText(tag, text)
       case Plain(printed) => tag.value == Text(printed)
  }

  lemma TagReports(key: JsString, place: Place, budget: nat)
    requires |place.path| <= budget
    ensures Reports(TagAt(key, place), key, place, budget)
  {
  }

  /** One tag for each leaf, in order, and each tag reports its leaf. */
  lemma EveryTagReportsALeaf(w: World, key: JsString, obj: Value, depth: int, maxDepth: int)
    ensures var budget := Budget(depth, maxDepth);
            var places, tags := Leaves(Unfold(w, obj, budget)), Flatten(w, key, obj, depth, maxDepth);
            |tags| == |places| && forall i :: 0 <= i < |tags| ==> Reports(tags[i], key, places[i], budget)
  {
    var budget := Budget(depth, maxDepth);
    var places := Leaves(Unfold(w, obj, budget));
    FlattenReportsLeaves(w, key, obj, depth, maxDepth);
    PathsAreBounded(w, obj, budget);
    forall i | 0 <= i < |places| ensures Reports(TagsAt(key, places)[i], key, places[i], budget) {
      assert places[i] in places;
      TagReports(key, places[i], budget);
    }
  }

  // ---------- nothing is left out ----------

  /** Going down from `obj` by these steps, into what a string parses to or into the field
      with that number, with the depth growing by one each time, leads to `to`. */
  predicate Reaches(w: World, key: JsString, obj: Value, depth: int, maxDepth: int, steps: seq<nat>,
                    toKey: JsString, to: Value, toDepth: int)
    decreases |steps|
  {
    if steps == [] then toKey == key && to == obj && toDepth == depth
    else if depth >= maxDepth then false
    else
      match obj
      case Str(s) =>
        w.parse(s).Some? && Reaches(w, key, w.parse(s).value, depth + 1, maxDepth, steps[1..], toKey, to, toDepth)
      case Obj(ref) =>
        steps[0] < |w.entries(ref)|
        && var (k, v) := w.entries(ref)[steps[0]];
           Reaches(w, key + (Units(".") + k), v, depth + 1, maxDepth, steps[1..], toKey, to, toDepth)
      case _ => false
  }

  lemma DotUnits()
    ensures Units(".") == [DOT]
  {
  }

  lemma {:induction false} EntryTagsAreSet(
    w: World, key: JsString, entries: seq<(JsString, Value)>, depth: int, maxDepth: int, i: nat, tag: Tag)
    requires i < |entries| && tag in Flatten(w, key + (Units(".") + entries[i].0), entries[i].1, depth, maxDepth)
    ensures tag in FlattenEntries(w, key, entries, depth, maxDepth)
  {
    DotUnits();
    if i > 0 {
      EntryTagsAreSet(w, key, entries[1..], depth, maxDepth, i - 1, tag);
    }
  }

  /** Whatever part of the payload is reached, the tags for it are among those set. */
  lemma {:induction false} ReachedPartsAreReported(
    w: World, key: JsString, obj: Value, depth: int, maxDepth: int, steps: seq<nat>,
    toKey: JsString, to: Value, toDepth: int, tag: Tag)
    requires Reaches(w, key, obj, depth, maxDepth, steps, toKey, to, toDepth)
    requires tag in Flatten(w, toKey, to, toDepth, maxDepth)
    ensures tag in Flatten(w, key, obj, depth, maxDepth)
    decreases |steps|
  {
    if steps != [] {
      if obj.Str? {
        ReachedPartsAreReported(w, key, w.parse(obj.s).value, depth + 1, maxDepth, steps[1..], toKey, to, toDepth, tag);
        FlattenParsed(w, key, obj.s, depth, maxDepth);
      } else {
        var (k, v) := w.entries(obj.ref)[steps[0]];
        ReachedPartsAreReported(w, key + (Units(".") + k), v, depth + 1, maxDepth, steps[1..], toKey, to, toDepth, tag);
        EntryTagsAreSet(w, key, w.entries(obj.ref), depth + 1, maxDepth, steps[0], tag);
        FlattenFields(w, key, obj.ref, depth, maxDepth);
      }
    }
  }

  /** And what is not looked into sets one tag under its own key, by its kind, or none. */
  lemma LeafTags(w: World, key: JsString, obj: Value, depth: int, maxDepth: int)
    ensures var tags := Flatten(w, key, obj, depth, maxDepth);
            && (obj.Null? ==> tags == [Tag(key, NullTag)])
            && (!obj.Null? && depth >= maxDepth ==>
                  if w.stringify(obj) == None then tags == []
                  else |tags| == 1 && tags[0].key == key && ReportsText(tags[0], w.stringify(obj).value))
            && (depth < maxDepth && obj.Str? && w.parse(obj.s) == None ==>
                  |tags| == 1 && tags[0].key == key && ReportsText(tags[0], obj.s))
            && (depth < maxDepth && obj.Num? ==> tags == [Tag(key, Text(obj.text))])
            && (depth < maxDepth && obj.Bool? ==>
                  tags == [Tag(key, Text(if obj.b then Units("true") else Units("false")))])
            && (depth < maxDepth && (obj.Undefined? || obj.Other?) ==> tags == [])
  {
  }

  // ---------- what stays hidden ----------

  /** The tag carries a text other than "redacted". */
  predicate Shows(tag: Tag) {
    tag.value.Text? && tag.value.text != Redacted()
  }

  predicate ShowsNothing(tags: seq<Tag>) {
    forall i :: 0 <= i < |tags| ==> !Shows(tags[i])
  }

  predicate LeafConcealed(redactable: bool, leaf: Leaf) {
    match leaf
    case NullLeaf => true
    case RawString(s) => redactable || s == Redacted()
    case CutOff(text) => redactable || text == Redacted()
    case Plain(_) => false
  }

  /** No text can be read from the payload: every string that is not JSON and every value
      that is cut off is stored under a redactable name, and there are no numbers and
      booleans. A redactable name further up does not help: what counts is the nearest. */
  predicate Concealed(redactable: bool, u: Unfolding)
    decreases u
  {
    match u
    case Nothing => true
    case LeafNode(leaf) => LeafConcealed(redactable, leaf)
    case Branch(fields) => FieldsConcealed(fields)
  }

  predicate FieldsConcealed(fields: seq<Field>)
    decreases fields
  {
    forall i :: 0 <= i < |fields| ==> Concealed(Redactable(SplitKey(fields[i].key)), fields[i].value)
  }

  lemma EndAfterDot(key: JsString, k: JsString, name: JsString)
    requires DOT !in name
    ensures EndsWithSegment(key + ([DOT] + k), name) <==> EndsWithSegment(k, name)
  {
    var full := key + ([DOT] + k);
    var n := |full| - |name|;
    assert full[|key|] == DOT;
    if n > 0 {
      if |k| < |name| {
        assert full[n..][|key| - n] == DOT;
      } else {
        assert full[n..] == k[|k| - |name|..];
      }
    }
  }

  /** Whether a field is redacted depends on its own name only. */
  lemma NameDecides(key: JsString, k: JsString)
    ensures Redactable(SplitKey(key + ([DOT] + k))) <==> Redactable(SplitKey(k))
  {
    RedactedIffEndsRedactably(key + ([DOT] + k));
    RedactedIffEndsRedactably(k);
    forall name | Redactable(name)
      ensures EndsWithSegment(key + ([DOT] + k), name) <==> EndsWithSegment(k, name)
    {
      RedactableSegmentsAreSolid(name);
      EndAfterDot(key, k, name);
    }
  }

  lemma ShowsNothingConcat(a: seq<Tag>, b: seq<Tag>)
    ensures ShowsNothing(a + b) <==> ShowsNothing(a) && ShowsNothing(b)
  {
    if ShowsNothing(a + b) {
      forall i | 0 <= i < |a| ensures !Shows(a[i]) { assert (a + b)[i] == a[i]; }
      forall i | 0 <= i < |b| ensures !Shows(b[i]) { assert (a + b)[|a| + i] == b[i]; }
    }
  }

  lemma CutStaysUnredacted(k: JsString, text: JsString)
    ensures RedactVal(k, Truncate(text)) == Redacted() <==> Redactable(SplitKey(k)) || text == Redacted()
  {
  }

  lemma LeafShowsNothingIff(key: JsString, leaf: Leaf)
    ensures ShowsNothing(TagsAt(key, [Place([], leaf)])) <==> LeafConcealed(Redactable(SplitKey(key)), leaf)
  {
    if leaf.RawString? { CutStaysUnredacted(key, leaf.s); }
    if leaf.CutOff? { CutStaysUnredacted(key, leaf.text); }
    assert TagsAt(key, [Place([], leaf)])[0] == Tag(key, Report(key, leaf));
  }

  lemma FieldsConcealedFirst(fields: seq<Field>)
    requires fields != []
    ensures FieldsConcealed(fields) <==>
              Concealed(Redactable(SplitKey(fields[0].key)), fields[0].value) && FieldsConcealed(fields[1..])
  {
    assert forall i :: 0 < i < |fields| ==> fields[i] == fields[1..][i - 1];
    assert forall i :: 0 <= i < |fields[1..]| ==> fields[1..][i] == fields[i + 1];
  }

  lemma {:induction false} LeavesShowNothingIff(key: JsString, redactable: bool, u: Unfolding)
    requires redactable <==> Redactable(SplitKey(key))
    ensures ShowsNothing(TagsAt(key, Leaves(u))) <==> Concealed(redactable, u)
    decreases u
  {
    match u
    case Nothing =>
    case LeafNode(leaf) => LeafShowsNothingIff(key, leaf);
    case Branch(fields) => FieldsShowNothingIff(key, fields);
  }

  lemma {:induction false} FieldsShowNothingIff(key: JsString, fields: seq<Field>)
    ensures ShowsNothing(TagsAt(key, LeavesOf(fields))) <==> FieldsConcealed(fields)
    decreases fields
  {
    if fields != [] {
      var f, places := fields[0], Leaves(fields[0].value);
      NameDecides(key, f.key);
      LeavesShowNothingIff(key + ([DOT] + f.key), Redactable(SplitKey(f.key)), f.value);
      FieldsShowNothingIff(key, fields[1..]);
      FieldsConcealedFirst(fields);
      TagsBelow(key, f.key, places);
      TagsAtConcat(key, Below(f.key, places), LeavesOf(fields[1..]));
      ShowsNothingConcat(TagsAt(key, Below(f.key, places)), TagsAt(key, LeavesOf(fields[1..])));
    }
  }

  /** No text is set exactly if the payload, within the budget, is concealed. */
  lemma NothingShownIffConcealed(w: World, key: JsString, obj: Value, depth: int, maxDepth: int)
    ensures ShowsNothing(Flatten(w, key, obj, depth, maxDepth))
       <==> Concealed(Redactable(SplitKey(key)), Unfold(w, obj, Budget(depth, maxDepth)))
  {
    FlattenReportsLeaves(w, key, obj, depth, maxDepth);
    LeavesShowNothingIff(key, Redactable(SplitKey(key)), Unfold(w, obj, Budget(depth, maxDepth)));
  }

  /** A string under a redactable name shows nothing exactly if it is not JSON, or if what
      it parses to is concealed itself. */
  lemma SecretStringIsHiddenIff(w: World, key: JsString, s: JsString, depth: int, maxDepth: int)
    requires Redactable(SplitKey(key)) && depth < maxDepth
    ensures ShowsNothing(Flatten(w, key, Str(s), depth, maxDepth))
       <==> w.parse(s) == None || Concealed(true, Unfold(w, w.parse(s).value, maxDepth - depth - 1))
  {
    NothingShownIffConcealed(w, key, Str(s), depth, maxDepth);
  }

  /** A password of digits is shown: in any world where `123` parses to a number, the payload
      `{"password": "123"}` sets the tag to those digits. */
  lemma PasswordOfDigitsIsShown(w: World, key: JsString, ref: nat)
    requires w.entries(ref) == [(Units("password"), Str(Units("123")))]
    requires w.parse(Units("123")) == Some(Num(Units("123")))
    ensures Flatten(w, key, Obj(ref), 0, 10) == [Tag(key + Units(".password"), Text(Units("123")))]
  {
    assert Units(".password") == [DOT] + Password();
    var entries := w.entries(ref);
    assert |entries[1..]| == 0;
    assert FlattenEntries(w, key, entries[1..], 1, 10) == [];
    assert Flatten(w, key + ([DOT] + Password()), Num(Units("123")), 2, 10)
        == [Tag(key + ([DOT] + Password()), Text(Units("123")))];
    assert Flatten(w, key + ([DOT] + Password()), entries[0].1, 1, 10)
        == Flatten(w, key + ([DOT] + Password()), Num(Units("123")), 2, 10);
  }

  // ---------- distinct keys ----------

  /** What a path adds to a key. */
  function Dotted(path: seq<JsString>): (text: JsString)
    ensures path != [] ==> text != [] && text[0] == DOT
    ensures path == [] ==> text == []
  {
    if path == [] then [] else [DOT] + path[0] + Dotted(path[1..])
  }

  lemma {:induction false} KeyIsDotted(key: JsString, path: seq<JsString>)
    ensures KeyAt(key, path) == key + Dotted(path)
    decreases |path|
  {
    if path != [] {
      KeyIsDotted(key + ([DOT] + path[0]), path[1..]);
      Regroup(key, [DOT] + path[0], Dotted(path[1..]));
    } else {
      assert key + [] == key;
    }
  }

  function Texts(places: seq<Place>): (texts: seq<JsString>)
    ensures |texts| == |places|
    ensures forall i :: 0 <= i < |places| ==> texts[i] == Dotted(places[i].path)
  {
    seq(|places|, i requires 0 <= i < |places| => Dotted(places[i].path))
  }

  function Keys(tags: seq<Tag>): (keys: seq<JsString>)
    ensures |keys| == |tags|
    ensures forall i :: 0 <= i < |tags| ==> keys[i] == tags[i].key
  {
    seq(|tags|, i requires 0 <= i < |tags| => tags[i].key)
  }

  predicate Distinct<T(==)>(s: seq<T>) {
    forall i, j :: 0 <= i < j < |s| ==> s[i] != s[j]
  }

  predicate Disjoint<T(==)>(a: seq<T>, b: seq<T>) {
    forall i, j :: 0 <= i < |a| && 0 <= j < |b| ==> a[i] != b[j]
  }

  lemma DistinctConcat<T>(a: seq<T>, b: seq<T>)
    ensures Distinct(a + b) <==> Distinct(a) && Distinct(b) && Disjoint(a, b)
  {
    var all := a + b;
    if Distinct(all) {
      forall i, j | 0 <= i < j < |a| ensures a[i] != a[j] { assert all[i] == a[i] && all[j] == a[j]; }
      forall i, j | 0 <= i < j < |b| ensures b[i] != b[j] {
        assert all[|a| + i] == b[i] && all[|a| + j] == b[j];
      }
      forall i, j | 0 <= i < |a| && 0 <= j < |b| ensures a[i] != b[j] {
        assert all[i] == a[i] && all[|a| + j] == b[j];
      }
    }
  }

  /** A prefix in front of every element changes nothing. */
  lemma DistinctUnderPrefix(prefix: JsString, s: seq<JsString>, t: seq<JsString>)
    requires |s| == |t| && forall i :: 0 <= i < |s| ==> t[i] == prefix + s[i]
    ensures Distinct(t) <==> Distinct(s)
  {
    forall i, j | 0 <= i < j < |s| ensures t[i] == t[j] <==> s[i] == s[j] {
      if t[i] == t[j] { DropPrefix(prefix, s[i], s[j]); }
    }
  }

  predicate SameText(f: Field, p: Place, g: Field, q: Place) {
    f.key + Dotted(p.path) == g.key + Dotted(q.path)
  }

  /** A leaf of one field and a leaf of the other get the same key. */
  ghost predicate Clash(f: Field, g: Field) {
    exists p, q :: p in Leaves(f.value) && q in Leaves(g.value) && SameText(f, p, g, q)
  }

  /** No two fields of one object clash, in the payload or in any object below it. */
  ghost predicate Unambiguous(u: Unfolding)
    decreases u
  {
    u.Branch? ==> UnambiguousFields(u.fields)
  }

  ghost predicate UnambiguousFields(fields: seq<Field>)
    decreases fields
  {
    && (forall i :: 0 <= i < |fields| ==> Unambiguous(fields[i].value))
    && (forall i, j :: 0 <= i < j < |fields| ==> !Clash(fields[i], fields[j]))
  }

  ghost predicate ClashesWithNone(f: Field, others: seq<Field>) {
    forall j :: 0 <= j < |others| ==> !Clash(f, others[j])
  }

  lemma UnambiguousFirst(fields: seq<Field>)
    requires fields != []
    ensures UnambiguousFields(fields) <==>
              Unambiguous(fields[0].value) && UnambiguousFields(fields[1..]) && ClashesWithNone(fields[0], fields[1..])
  {
    if Unambiguous(fields[0].value) && UnambiguousFields(fields[1..]) && ClashesWithNone(fields[0], fields[1..]) {
      UnambiguousWithFirst(fields[0], fields[1..]);
      assert [fields[0]] + fields[1..] == fields;
    }
  }

  lemma UnambiguousWithFirst(f: Field, rest: seq<Field>)
    requires Unambiguous(f.value) && UnambiguousFields(rest) && ClashesWithNone(f, rest)
    ensures UnambiguousFields([f] + rest)
  {
    var fields := [f] + rest;
    forall i | 0 <= i < |fields| ensures Unambiguous(fields[i].value) {
      assert i > 0 ==> fields[i] == rest[i - 1];
    }
    forall i, j | 0 <= i < j < |fields| ensures !Clash(fields[i], fields[j]) {
      assert fields[j] == rest[j - 1] && (i > 0 ==> fields[i] == rest[i - 1]);
    }
  }

  function BelowField(f: Field): seq<Place> { Below(f.key, Leaves(f.value)) }

  lemma LeavesOfFirst(fields: seq<Field>)
    requires fields != []
    ensures LeavesOf(fields) == BelowField(fields[0]) + LeavesOf(fields[1..])
  {
  }

  lemma TextsConcat(a: seq<Place>, b: seq<Place>)
    ensures Texts(a + b) == Texts(a) + Texts(b)
  {
  }

  lemma TextsBelow(key: JsString, places: seq<Place>, i: nat)
    requires i < |places|
    ensures Texts(Below(key, places))[i] == [DOT] + key + Texts(places)[i]
  {
    var path := Below(key, places)[i].path;
    assert path == [key] + places[i].path && path[0] == key && path[1..] == places[i].path;
  }

  lemma DistinctBelow(key: JsString, places: seq<Place>)
    ensures Distinct(Texts(Below(key, places))) <==> Distinct(Texts(places))
  {
    forall i | 0 <= i < |places| ensures Texts(Below(key, places))[i] == [DOT] + key + Texts(places)[i] {
      TextsBelow(key, places, i);
    }
    DistinctUnderPrefix([DOT] + key, Texts(places), Texts(Below(key, places)));
  }

  lemma SameTextBelow(f: Field, g: Field, i: nat, j: nat)
    requires i < |Leaves(f.value)| && j < |Leaves(g.value)|
    ensures Texts(BelowField(f))[i] == Texts(BelowField(g))[j]
       <==> SameText(f, Leaves(f.value)[i], g, Leaves(g.value)[j])
  {
    var x, y := Dotted(Leaves(f.value)[i].path), Dotted(Leaves(g.value)[j].path);
    TextsBelow(f.key, Leaves(f.value), i);
    TextsBelow(g.key, Leaves(g.value), j);
    Regroup([DOT], f.key, x);
    Regroup([DOT], g.key, y);
    if [DOT] + (f.key + x) == [DOT] + (g.key + y) { DropPrefix([DOT], f.key + x, g.key + y); }
  }

  lemma NoClashMeansDisjoint(f: Field, g: Field)
    requires !Clash(f, g)
    ensures Disjoint(Texts(BelowField(f)), Texts(BelowField(g)))
  {
    var a, b := Leaves(f.value), Leaves(g.value);
    forall i, j | 0 <= i < |a| && 0 <= j < |b| ensures Texts(BelowField(f))[i] != Texts(BelowField(g))[j] {
      SameTextBelow(f, g, i, j);
      assert a[i] in a && b[j] in b;
    }
  }

  lemma ClashMeansShared(f: Field, g: Field)
    requires Clash(f, g)
    ensures !Disjoint(Texts(BelowField(f)), Texts(BelowField(g)))
  {
    var a, b := Leaves(f.value), Leaves(g.value);
    var p, q :| p in a && q in b && SameText(f, p, g, q);
    var i :| 0 <= i < |a| && a[i] == p;
    var j :| 0 <= j < |b| && b[j] == q;
    SameTextBelow(f, g, i, j);
  }

  lemma DisjointConcat<T>(a: seq<T>, b: seq<T>, c: seq<T>)
    ensures Disjoint(a, b + c) <==> Disjoint(a, b) && Disjoint(a, c)
  {
    var all := b + c;
    if Disjoint(a, all) {
      forall i, j | 0 <= i < |a| && 0 <= j < |b| ensures a[i] != b[j] { assert all[j] == b[j]; }
      forall i, j | 0 <= i < |a| && 0 <= j < |c| ensures a[i] != c[j] { assert all[|b| + j] == c[j]; }
    }
  }

  lemma ClashesWithFirst(f: Field, others: seq<Field>)
    requires others != []
    ensures ClashesWithNone(f, others) <==> !Clash(f, others[0]) && ClashesWithNone(f, others[1..])
  {
    assert forall j :: 0 < j < |others| ==> others[j] == others[1..][j - 1];
    assert forall j :: 0 <= j < |others[1..]| ==> others[1..][j] == others[j + 1];
  }

  lemma {:induction false} DisjointFromFields(f: Field, others: seq<Field>)
    ensures Disjoint(Texts(BelowField(f)), Texts(LeavesOf(others))) <==> ClashesWithNone(f, others)
  {
    if others != [] {
      var g, rest := others[0], others[1..];
      DisjointFromFields(f, rest);
      if Clash(f, g) { ClashMeansShared(f, g); } else { NoClashMeansDisjoint(f, g); }
      DisjointFromMore(f, g, rest);
      ClashesWithFirst(f, others);
      LeavesOfFirst(others);
    }
  }

  lemma DisjointFromMore(f: Field, g: Field, rest: seq<Field>)
    ensures Disjoint(Texts(BelowField(f)), Texts(BelowField(g) + LeavesOf(rest)))
       <==> Disjoint(Texts(BelowField(f)), Texts(BelowField(g)))
            && Disjoint(Texts(BelowField(f)), Texts(LeavesOf(rest)))
  {
    TextsConcat(BelowField(g), LeavesOf(rest));
    DisjointConcat(Texts(BelowField(f)), Texts(BelowField(g)), Texts(LeavesOf(rest)));
  }

  lemma {:induction false} TextsAreDistinctIff(fields: seq<Field>)
    ensures Distinct(Texts(LeavesOf(fields))) <==> UnambiguousFields(fields)
    decreases fields
  {
    if fields != [] {
      var f, rest := fields[0], fields[1..];
      LeafTextsAreDistinctIff(f.value);
      TextsAreDistinctIff(rest);
      DistinctBelow(f.key, Leaves(f.value));
      DisjointFromFields(f, rest);
      UnambiguousFirst(fields);
      LeavesOfFirst(fields);
      TextsConcat(BelowField(f), LeavesOf(rest));
      DistinctConcat(Texts(BelowField(f)), Texts(LeavesOf(rest)));
    }
  }

  lemma {:induction false} LeafTextsAreDistinctIff(u: Unfolding)
    ensures Distinct(Texts(Leaves(u))) <==> Unambiguous(u)
    decreases u
  {
    if u.Branch? { TextsAreDistinctIff(u.fields); }
  }

  /** Two tags have the same key exactly if the paths of their leaves read the same. */
  lemma SameKeyIffSameText(w: World, key: JsString, obj: Value, depth: int, maxDepth: int, i: nat, j: nat)
    requires i < |Flatten(w, key, obj, depth, maxDepth)| && j < |Flatten(w, key, obj, depth, maxDepth)|
    ensures var places, tags := Leaves(Unfold(w, obj, Budget(depth, maxDepth))), Flatten(w, key, obj, depth, maxDepth);
            && |tags| == |places|
            && (tags[i].key == tags[j].key <==> Dotted(places[i].path) == Dotted(places[j].path))
  {
    var places := Leaves(Unfold(w, obj, Budget(depth, maxDepth)));
    FlattenReportsLeaves(w, key, obj, depth, maxDepth);
    KeyIsDotted(key, places[i].path);
    KeyIsDotted(key, places[j].path);
    if key + Dotted(places[i].path) == key + Dotted(places[j].path) {
      DropPrefix(key, Dotted(places[i].path), Dotted(places[j].path));
    }
  }

  lemma KeysOfTags(key: JsString, places: seq<Place>)
    ensures Distinct(Keys(TagsAt(key, places))) <==> Distinct(Texts(places))
  {
    var keys := Keys(TagsAt(key, places));
    forall i | 0 <= i < |places| ensures keys[i] == key + Texts(places)[i] {
      KeyIsDotted(key, places[i].path);
    }
    DistinctUnderPrefix(key, Texts(places), keys);
  }

  /** No tag key is set twice exactly if no two fields of one object, within the budget,
      clash. */
  lemma TagKeysAreDistinctIff(w: World, key: JsString, obj: Value, depth: int, maxDepth: int)
    ensures Distinct(Keys(Flatten(w, key, obj, depth, maxDepth)))
       <==> Unambiguous(Unfold(w, obj, Budget(depth, maxDepth)))
  {
    var u := Unfold(w, obj, Budget(depth, maxDepth));
    FlattenReportsLeaves(w, key, obj, depth, maxDepth);
    KeysOfTags(key, Leaves(u));
    LeafTextsAreDistinctIff(u);
  }

  // ---------- which object keys are safe ----------

  predicate ExtendsByDot(shorter: JsString, longer: JsString) {
    |shorter| < |longer| && longer[..|shorter|] == shorter && longer[|shorter|] == DOT
  }

  /** No key is another one, or another one followed by a dot and more. */
  predicate PrefixFree(keys: seq<JsString>) {
    forall i, j :: 0 <= i < |keys| && 0 <= j < |keys| && i != j ==>
      keys[i] != keys[j] && !ExtendsByDot(keys[i], keys[j])
  }

  function FieldNames(entries: seq<(JsString, Value)>): (names: seq<JsString>)
    ensures |names| == |entries|
    ensures forall i :: 0 <= i < |entries| ==> names[i] == entries[i].0
  {
    seq(|entries|, i requires 0 <= i < |entries| => entries[i].0)
  }

  lemma SharedStart(a: JsString, x: JsString, b: JsString, y: JsString)
    requires a + x == b + y && |a| <= |b|
    requires x == [] || x[0] == DOT
    ensures a == b || ExtendsByDot(a, b)
  {
    assert a == (a + x)[..|a|] == (b + y)[..|a|] == b[..|a|];
    if |a| < |b| {
      assert (a + x)[|a|] == (b + y)[|a|] == b[|a|];
      assert x != [] && (a + x)[|a|] == x[0];
    }
  }

  /** Fields can clash only if the key of one extends the key of the other. */
  lemma ClashMeansExtension(f: Field, g: Field)
    requires Clash(f, g)
    ensures f.key == g.key || ExtendsByDot(f.key, g.key) || ExtendsByDot(g.key, f.key)
  {
    var p, q :| p in Leaves(f.value) && q in Leaves(g.value) && SameText(f, p, g, q);
    if |f.key| <= |g.key| {
      SharedStart(f.key, Dotted(p.path), g.key, Dotted(q.path));
    } else {
      SharedStart(g.key, Dotted(q.path), f.key, Dotted(p.path));
    }
  }

  lemma {:induction false} FieldAt(w: World, entries: seq<(JsString, Value)>, budget: nat, i: nat)
    requires i < |entries|
    ensures |UnfoldFields(w, entries, budget)| == |entries|
    ensures UnfoldFields(w, entries, budget)[i] == Field(entries[i].0, Unfold(w, entries[i].1, budget))
  {
    if i > 0 {
      FieldAt(w, entries[1..], budget, i - 1);
    } else if |entries| > 1 {
      FieldAt(w, entries[1..], budget, 0);
    }
  }

  lemma PrefixFreeFieldsAreUnambiguous(w: World, entries: seq<(JsString, Value)>, budget: nat)
    requires PrefixFree(FieldNames(entries))
    requires forall i :: 0 <= i < |entries| ==> Unambiguous(Unfold(w, entries[i].1, budget))
    ensures UnambiguousFields(UnfoldFields(w, entries, budget))
  {
    var fields, names := UnfoldFields(w, entries, budget), FieldNames(entries);
    assert |fields| == |entries| by { if entries != [] { FieldAt(w, entries, budget, 0); } }
    forall i | 0 <= i < |entries|
      ensures fields[i] == Field(names[i], Unfold(w, entries[i].1, budget)) && Unambiguous(fields[i].value)
    {
      FieldAt(w, entries, budget, i);
    }
    forall i, j | 0 <= i < j < |fields| ensures !Clash(fields[i], fields[j]) {
      if Clash(fields[i], fields[j]) {
        ClashMeansExtension(fields[i], fields[j]);
        assert false;
      }
    }
  }

  /** The object keys are prefix-free in the part of the payload that is reached. */
  predicate PrefixFreeWithin(w: World, obj: Value, budget: nat)
    decreases budget
  {
    budget > 0 ==>
      && (obj.Str? && w.parse(obj.s).Some? ==> PrefixFreeWithin(w, w.parse(obj.s).value, budget - 1))
      && (obj.Obj? ==>
            && PrefixFree(FieldNames(w.entries(obj.ref)))
            && forall i :: 0 <= i < |w.entries(obj.ref)| ==>
                 PrefixFreeWithin(w, w.entries(obj.ref)[i].1, budget - 1))
  }

  lemma {:induction false} PrefixFreeIsUnambiguous(w: World, obj: Value, budget: nat)
    requires PrefixFreeWithin(w, obj, budget)
    ensures Unambiguous(Unfold(w, obj, budget))
    decreases budget
  {
    if budget > 0 && obj.Str? && w.parse(obj.s).Some? {
      PrefixFreeIsUnambiguous(w, w.parse(obj.s).value, budget - 1);
    } else if budget > 0 && obj.Obj? {
      var entries := w.entries(obj.ref);
      forall i | 0 <= i < |entries| ensures Unambiguous(Unfold(w, entries[i].1, budget - 1)) {
        PrefixFreeIsUnambiguous(w, entries[i].1, budget - 1);
      }
      PrefixFreeFieldsAreUnambiguous(w, entries, budget - 1);
    }
  }

  /** If in every object reached no key extends another by a dot, no tag key is set twice. */
  lemma TagKeysAreDistinct(w: World, key: JsString, obj: Value, depth: int, maxDepth: int)
    requires PrefixFreeWithin(w, obj, Budget(depth, maxDepth))
    ensures Distinct(Keys(Flatten(w, key, obj, depth, maxDepth)))
  {
    PrefixFreeIsUnambiguous(w, obj, Budget(depth, maxDepth));
    TagKeysAreDistinctIff(w, key, obj, depth, maxDepth);
  }

  /** The value of each field, flattened on its own, sets no tag key twice. */
  predicate FieldsAreFine(w: World, key: JsString, entries: seq<(JsString, Value)>, depth: int, maxDepth: int) {
    forall i :: 0 <= i < |entries| ==>
      Distinct(Keys(Flatten(w, key + ([DOT] + entries[i].0), entries[i].1, depth + 1, maxDepth)))
  }

  lemma PrefixFreeKeysAreSafe(w: World, key: JsString, ref: nat, depth: int, maxDepth: int)
    requires PrefixFree(FieldNames(w.entries(ref))) && FieldsAreFine(w, key, w.entries(ref), depth, maxDepth)
    ensures Distinct(Keys(Flatten(w, key, Obj(ref), depth, maxDepth)))
  {
    var entries := w.entries(ref);
    if depth < maxDepth {
      forall i | 0 <= i < |entries| ensures Unambiguous(Unfold(w, entries[i].1, maxDepth - depth - 1)) {
        TagKeysAreDistinctIff(w, key + ([DOT] + entries[i].0), entries[i].1, depth + 1, maxDepth);
      }
      PrefixFreeFieldsAreUnambiguous(w, entries, maxDepth - depth - 1);
    }
    TagKeysAreDistinctIff(w, key, Obj(ref), depth, maxDepth);
  }

  /** `{…, f: {x: true}, …}`, where every other field is `true`. */
  function Nested(names: seq<JsString>, f: nat, x: JsString): World {
    World(
      ref => if ref == 0
             then seq(|names|, i requires 0 <= i < |names| => (names[i], if i == f then Obj(1) else Bool(true)))
             else [(x, Bool(true))],
      s => None, v => None)
  }

  lemma OneTag(w: World, key: JsString, x: JsString)
    requires w.entries(1) == [(x, Bool(true))]
    ensures Flatten(w, key, Bool(true), 1, 10) == [Tag(key, Text(BoolText(true)))]
    ensures Flatten(w, key, Obj(1), 1, 10) == [Tag(key + ([DOT] + x), Text(BoolText(true)))]
    ensures Leaves(Unfold(w, Bool(true), 9)) == [Place([], Plain(BoolText(true)))]
    ensures Leaves(Unfold(w, Obj(1), 9)) == [Place([x], Plain(BoolText(true)))]
  {
    var entries := w.entries(1);
    assert entries[1..] == [];
    assert FlattenEntries(w, key, entries[1..], 2, 10) == [];
    assert UnfoldFields(w, entries[1..], 8) == [];
    assert UnfoldFields(w, entries, 8) == [Field(x, LeafNode(Plain(BoolText(true))))];
    LeavesOfFirst(UnfoldFields(w, entries, 8));
    BelowOne(x, Plain(BoolText(true)));
    assert Leaves(Unfold(w, Obj(1), 9)) == LeavesOf(UnfoldFields(w, entries, 8));
  }

  lemma BelowOne(x: JsString, leaf: Leaf)
    ensures Below(x, [Place([], leaf)]) == [Place([x], leaf)]
  {
    assert [x] + [] == [x];
  }

  lemma NestedFieldsAreFine(names: seq<JsString>, f: nat, x: JsString, key: JsString)
    ensures FieldNames(Nested(names, f, x).entries(0)) == names
    ensures FieldsAreFine(Nested(names, f, x), key, Nested(names, f, x).entries(0), 0, 10)
  {
    var w := Nested(names, f, x);
    var entries := w.entries(0);
    forall i | 0 <= i < |entries|
      ensures Distinct(Keys(Flatten(w, key + ([DOT] + entries[i].0), entries[i].1, 1, 10)))
    {
      OneTag(w, key + ([DOT] + entries[i].0), x);
    }
  }

  /** Whenever one key extends another by a dot, the shorter one can hold an object that
      makes the two fields set the same tag key. */
  lemma ExtendedKeysCollide(names: seq<JsString>, f: nat, g: nat, key: JsString) returns (w: World)
    requires f < |names| && g < |names| && ExtendsByDot(names[f], names[g])
    ensures FieldNames(w.entries(0)) == names && FieldsAreFine(w, key, w.entries(0), 0, 10)
    ensures !Distinct(Keys(Flatten(w, key, Obj(0), 0, 10)))
  {
    var x := names[g][|names[f]| + 1..];
    w := Nested(names, f, x);
    NestedFieldsAreFine(names, f, x, key);
    NestedIsAmbiguous(w, names, f, g, x);
    TagKeysAreDistinctIff(w, key, Obj(0), 0, 10);
  }

  lemma NestedIsAmbiguous(w: World, names: seq<JsString>, f: nat, g: nat, x: JsString)
    requires w == Nested(names, f, x) && f < |names| && g < |names| && f != g
    requires names[g] == names[f] + ([DOT] + x)
    ensures !Unambiguous(Unfold(w, Obj(0), 10))
  {
    var fields := UnfoldFields(w, w.entries(0), 9);
    OneTag(w, [], x);
    FieldAt(w, w.entries(0), 9, f);
    FieldAt(w, w.entries(0), 9, g);
    assert Place([x], Plain(BoolText(true))) in Leaves(fields[f].value);
    assert Place([], Plain(BoolText(true))) in Leaves(fields[g].value);
    NestedFieldsClash(fields[f], fields[g], x);
  }

  lemma NestedFieldsClash(f: Field, g: Field, x: JsString)
    requires g.key == f.key + ([DOT] + x)
    requires exists leaf :: Place([x], leaf) in Leaves(f.value)
    requires exists leaf :: Place([], leaf) in Leaves(g.value)
    ensures Clash(f, g) && Clash(g, f)
  {
    var p :| p in Leaves(f.value) && p.path == [x];
    var q :| q in Leaves(g.value) && q.path == [];
    assert Dotted([x]) == [DOT] + x;
    assert SameText(f, p, g, q) && SameText(g, q, f, p);
  }

  /** For the distinct keys of an object: whatever its fields hold, each without a double
      tag key of its own, the object sets none twice, exactly if no key extends another. */
  lemma SafeKeysArePrefixFree(names: seq<JsString>)
    requires Distinct(names)
    ensures PrefixFree(names) <==>
      forall w: World, key: JsString, ref: nat, depth: int, maxDepth: int ::
        FieldNames(w.entries(ref)) == names && FieldsAreFine(w, key, w.entries(ref), depth, maxDepth) ==>
          Distinct(Keys(Flatten(w, key, Obj(ref), depth, maxDepth)))
  {
    if PrefixFree(names) {
      forall w: World, key: JsString, ref: nat, depth: int, maxDepth: int
        | FieldNames(w.entries(ref)) == names && FieldsAreFine(w, key, w.entries(ref), depth, maxDepth)
        ensures Distinct(Keys(Flatten(w, key, Obj(ref), depth, maxDepth)))
      {
        PrefixFreeKeysAreSafe(w, key, ref, depth, maxDepth);
      }
    } else {
      var f, g :| 0 <= f < |names| && 0 <= g < |names| && f != g
                   && (names[f] == names[g] || ExtendsByDot(names[f], names[g]));
      var w := ExtendedKeysCollide(names, f, g, []);
    }
  }

  // ---------- the method ----------

  class Span {
    var tags: seq<Tag>

    method SetTag(key: JsString, value: TagValue)
      modifies this
      ensures tags == old(tags) + [Tag(key, value)]
    {
      tags := tags + [Tag(key, value)];
    }
  }

  method TagObject(span: Span, w: World, key: JsString, obj: Value, depth: int, maxDepth: int)
    modifies span
    ensures span.tags == old(span.tags) + Flatten(w, key, obj, depth, maxDepth)
    decreases maxDepth - depth, 0
  {
    if obj.Null? {
      span.SetTag(key, NullTag);
      return;
    }
    if depth >= maxDepth {
      var strOrUndefined := w.stringify(obj);
      if strOrUndefined == None { return; }
      span.SetTag(key, Text(RedactVal(key, Truncate(strOrUndefined.value))));
      return;
    }
    match obj {
      case Str(s) =>
        var parsed := w.parse(s);
        if parsed == None {
          span.SetTag(key, Text(RedactVal(key, Truncate(s))));
        } else {
          TagObject(span, w, key, parsed.value, depth + 1, maxDepth);
        }
      case Num(text) => span.SetTag(key, Text(text));
      case Bool(b) => span.SetTag(key, Text(BoolText(b)));
      case Obj(ref) => TagEntries(span, w, key, w.entries(ref), depth + 1, maxDepth);
      case _ =>
    }
  }

  /** `for (const [k, v] of Object.entries(obj))` */
  method TagEntries(span: Span, w: World, key: JsString, entries: seq<(JsString, Value)>, depth: int, maxDepth: int)
    requires depth <= maxDepth
    modifies span
    ensures span.tags == old(span.tags) + FlattenEntries(w, key, entries, depth, maxDepth)
    decreases maxDepth - depth, 1
  {
    for i := 0 to |entries|
      invariant span.tags + FlattenEntries(w, key, entries[i..], depth, maxDepth)
             == old(span.tags) + FlattenEntries(w, key, entries, depth, maxDepth)
    {
      var (k, v) := entries[i];
      assert entries[i..][1..] == entries[i + 1..];
      TagObject(span, w, key + ([DOT] + k), v, depth, maxDepth);
    }
    assert entries[|entries|..] == [];
  }
}
