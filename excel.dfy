/** The helpers of the Excel export: flattening a path into one column,
    the description lookup, sheet names, and the columns of a priority tab. */
module Excel {
  import opened Common
  import opened Text
  import opened Parser

  // ---------------------------------------------------------------------------
  // flatten_path_to_strings

  /** Each segment's action and target, in order. */
  function FlatTail(segs: seq<PathSegment>): (r: seq<string>)
    ensures |r| == 2 * |segs|
    ensures forall i :: 0 <= i < |segs| ==> r[2 * i] == segs[i].action && r[2 * i + 1] == segs[i].target
  {
    if segs == [] then []
    else
      var front := segs[..|segs| - 1];
      assert forall i :: 0 <= i < |front| ==> front[i] == segs[i];
      FlatTail(front) + [segs[|segs| - 1].action, segs[|segs| - 1].target]
  }

  /** `[src0, a0, t0, a1, t1, ...]`, or nothing for no segments. */
  function Flattened(segs: seq<PathSegment>): (r: seq<string>)
    ensures segs == [] <==> r == []
    ensures segs != [] ==> |r| == 2 * |segs| + 1 && r[0] == segs[0].source
    ensures segs != [] ==> forall i :: 0 <= i < |segs| ==>
      r[2 * i + 1] == segs[i].action && r[2 * i + 2] == segs[i].target
  {
    if segs == [] then [] else [segs[0].source] + FlatTail(segs)
  }

  lemma FlatTailNext(segs: seq<PathSegment>, i: nat)
    requires i < |segs|
    ensures FlatTail(segs[..i + 1]) == FlatTail(segs[..i]) + [segs[i].action, segs[i].target]
  {
    assert segs[..i + 1][..i] == segs[..i];
  }

  method FlattenPathToStrings(segments: seq<PathSegment>) returns (result: seq<string>)
    ensures result == Flattened(segments)
  {
    if |segments| == 0 {
      return [];
    }
    result := [segments[0].source];
    for i := 0 to |segments|
      invariant result == [segments[0].source] + FlatTail(segments[..i])
    {
      FlatTailNext(segments, i);
      result := result + [segments[i].action];
      result := result + [segments[i].target];
    }
    assert segments[..|segments|] == segments;
  }

  /** The texts of path elements, in order. */
  function Texts(els: seq<PathElement>): (r: seq<string>)
    ensures |r| == |els| && forall i :: 0 <= i < |els| ==> r[i] == els[i].text
  {
    if els == [] then [] else Texts(els[..|els| - 1]) + [els[|els| - 1].text]
  }

  /** The flattened column lists the texts extract_path_elements gives. */
  lemma FlattenedTexts(segs: seq<PathSegment>)
    ensures Flattened(segs) == Texts(Elements(segs))
  {
    var f, els := Flattened(segs), Elements(segs);
    var t := Texts(els);
    if segs != [] {
      forall k | 0 <= k < |f|
        ensures f[k] == t[k]
      {
        if k > 0 {
          var i := (k - 1) / 2;
          if k == 2 * i + 1 {
            assert els[2 * i + 1].text == segs[i].action;
          } else {
            assert k == 2 * i + 2;
            assert els[2 * i + 2].text == segs[i].target;
          }
        }
      }
    }
  }

  // ---------------------------------------------------------------------------
  // sanitize_sheet_name

  /** The characters a sheet name may not hold: `[ ] : * ? / \`. */
  predicate Illegal(c: char) {
    c == '[' || c == ']' || c == ':' || c == '*' || c == '?' || c == '/' || c == '\\'
  }

  /** re.sub of the illegal characters with nothing. */
  function Legal(s: string): (r: string)
    ensures |r| <= |s|
    ensures forall i :: 0 <= i < |r| ==> !Illegal(r[i])
    ensures (forall i :: 0 <= i < |s| ==> !Illegal(s[i])) ==> r == s
  {
    if s == [] then []
    else
      var front := s[..|s| - 1];
      assert forall i :: 0 <= i < |front| ==> front[i] == s[i];
      Legal(front) + (if Illegal(s[|s| - 1]) then [] else [s[|s| - 1]])
  }

  /** str.isspace: non-empty and white space throughout. */
  predicate AllSpace(s: string) {
    s != [] && forall i :: 0 <= i < |s| ==> IsSpace(s[i])
  }

  const MaxSheetName := 31

  function SanitizeSheetName(name: string): (r: string)
    ensures 0 < |r| <= MaxSheetName
    ensures forall i :: 0 <= i < |r| ==> !Illegal(r[i])
    ensures var s := Legal(name); s == [] || AllSpace(s) ==> r == "Sheet"
    ensures var s := Legal(name); !(s == [] || AllSpace(s)) ==>
      r <= s && |r| == if |s| < MaxSheetName then |s| else MaxSheetName
  {
    var s := Legal(name);
    var t := if s == [] || AllSpace(s) then "Sheet" else s;
    if |t| <= MaxSheetName then t else t[..MaxSheetName]
  }

  /** Sanitising a sanitised name changes nothing unless the cut left only
      white space. */
  lemma SanitizeAgain(name: string)
    requires !AllSpace(SanitizeSheetName(name))
    ensures SanitizeSheetName(SanitizeSheetName(name)) == SanitizeSheetName(name)
  {
  }

  /** ... which it can: 31 spaces and a letter become 31 spaces, and those
      become "Sheet". */
  lemma SanitizeNotIdempotent()
    ensures var r := SanitizeSheetName(Repeat(' ', 31) + "a");
      r == Repeat(' ', 31) && SanitizeSheetName(r) == "Sheet"
  {
    var name := Repeat(' ', 31) + "a";
    assert Legal(name) == name;
    assert !AllSpace(name) by { assert !IsSpace(name[31]); }
    assert name[..31] == Repeat(' ', 31);
    assert Legal(Repeat(' ', 31)) == Repeat(' ', 31);
    assert AllSpace(Repeat(' ', 31));
  }

  // ---------------------------------------------------------------------------
  // build_description_lookup

  /** A state or intent of the vocabulary: `id` and `description` are None
      when the key is missing. */
  datatype VocabEntry = VocabEntry(id: Option<string>, description: Option<string>)

  /** The `vocabulary` object; a missing list is empty. */
  datatype Vocabulary = Vocabulary(states: seq<VocabEntry>, intents: seq<VocabEntry>)

  /** An id that is present and not empty. */
  predicate HasId(e: VocabEntry) {
    e.id.Some? && e.id.value != ""
  }

  function Description(e: VocabEntry): string {
    if e.description.Some? then e.description.value else ""
  }

  /** The lookup after adding the entries in order, later ones overwriting
      earlier ones. */
  function AddEntries(m: map<string, string>, es: seq<VocabEntry>): (r: map<string, string>)
    ensures forall k :: k in r <==> k in m || exists i :: 0 <= i < |es| && HasId(es[i]) && es[i].id.value == k
  {
    if es == [] then m
    else
      var front := es[..|es| - 1];
      var last := es[|es| - 1];
      assert forall i :: 0 <= i < |front| ==> front[i] == es[i];
      var r := AddEntries(m, front);
      if HasId(last) then r[last.id.value := Description(last)] else r
  }

  /** build_description_lookup; the JSON value is None when it is missing or
      holds no `vocabulary` key. */
  function DescriptionLookup(vocabularyJson: Option<Vocabulary>): (r: map<string, string>)
    ensures vocabularyJson.None? ==> r == map[]
  {
    match vocabularyJson
    case None => map[]
    case Some(v) => AddEntries(AddEntries(map[], v.states), v.intents)
  }

  /** The last entry with a given id decides its description. */
  lemma {:induction false} LastEntryWins(m: map<string, string>, es: seq<VocabEntry>, i: nat)
    requires i < |es| && HasId(es[i])
    requires forall j :: i < j < |es| ==> !HasId(es[j]) || es[j].id != es[i].id
    ensures AddEntries(m, es)[es[i].id.value] == Description(es[i])
  {
    var front := es[..|es| - 1];
    if i < |es| - 1 {
      assert forall j :: i < j < |front| ==> front[j] == es[j];
      LastEntryWins(m, front, i);
    }
  }

  /** Entries without the id leave its description alone. */
  lemma {:induction false} OtherEntriesKeep(m: map<string, string>, es: seq<VocabEntry>, k: string)
    requires k in m
    requires forall j :: 0 <= j < |es| ==> !HasId(es[j]) || es[j].id.value != k
    ensures AddEntries(m, es)[k] == m[k]
  {
    if es != [] {
      var front := es[..|es| - 1];
      assert forall j :: 0 <= j < |front| ==> front[j] == es[j];
      OtherEntriesKeep(m, front, k);
    }
  }

  /** An intent overrides a state with the same id. */
  lemma IntentOverrides(v: Vocabulary, i: nat)
    requires i < |v.intents| && HasId(v.intents[i])
    requires forall j :: i < j < |v.intents| ==> !HasId(v.intents[j]) || v.intents[j].id != v.intents[i].id
    ensures DescriptionLookup(Some(v))[v.intents[i].id.value] == Description(v.intents[i])
  {
    LastEntryWins(AddEntries(map[], v.states), v.intents, i);
  }

  /** A state no intent names keeps its own description. */
  lemma StateKept(v: Vocabulary, i: nat)
    requires i < |v.states| && HasId(v.states[i])
    requires forall j :: i < j < |v.states| ==> !HasId(v.states[j]) || v.states[j].id != v.states[i].id
    requires forall j :: 0 <= j < |v.intents| ==> !HasId(v.intents[j]) || v.intents[j].id != v.states[i].id
    ensures DescriptionLookup(Some(v))[v.states[i].id.value] == Description(v.states[i])
  {
    LastEntryWins(map[], v.states, i);
    OtherEntriesKeep(AddEntries(map[], v.states), v.intents, v.states[i].id.value);
  }

  lemma AddEntriesNext(m: map<string, string>, es: seq<VocabEntry>, i: nat)
    requires i < |es|
    ensures AddEntries(m, es[..i + 1])
      == if HasId(es[i]) then AddEntries(m, es[..i])[es[i].id.value := Description(es[i])] else AddEntries(m, es[..i])
  {
    assert es[..i + 1][..i] == es[..i];
  }

  method AddAll(m: map<string, string>, es: seq<VocabEntry>) returns (descriptions: map<string, string>)
    ensures descriptions == AddEntries(m, es)
  {
    descriptions := m;
    for i := 0 to |es|
      invariant descriptions == AddEntries(m, es[..i])
    {
      AddEntriesNext(m, es, i);
      var entryId := es[i].id;
      var entryDesc := if es[i].description.Some? then es[i].description.value else "";
      if entryId.Some? && entryId.value != "" {
        descriptions := descriptions[entryId.value := entryDesc];
      }
    }
    assert es[..|es|] == es;
  }

  method BuildDescriptionLookup(vocabularyJson: Option<Vocabulary>) returns (descriptions: map<string, string>)
    ensures descriptions == DescriptionLookup(vocabularyJson)
  {
    if vocabularyJson.None? {
      return map[];
    }
    descriptions := AddAll(map[], vocabularyJson.value.states);
    descriptions := AddAll(descriptions, vocabularyJson.value.intents);
  }

  // ---------------------------------------------------------------------------
  // flatten_path_with_descriptions

  function Describe(lookup: map<string, string>, id: string): string {
    if id in lookup then lookup[id] else ""
  }

  function Descriptions(lookup: map<string, string>, ids: seq<string>): (r: seq<string>)
    ensures |r| == |ids| && forall i :: 0 <= i < |ids| ==> r[i] == Describe(lookup, ids[i])
  {
    if ids == [] then [] else Descriptions(lookup, ids[..|ids| - 1]) + [Describe(lookup, ids[|ids| - 1])]
  }

  /** desc shows the description of each id of flow, or "". */
  predicate Described(lookup: map<string, string>, flow: seq<string>, desc: seq<string>) {
    |desc| == |flow| && forall j :: 0 <= j < |flow| ==> desc[j] == Describe(lookup, flow[j])
  }

  lemma DescribedNext(lookup: map<string, string>, flow: seq<string>, desc: seq<string>, x: string, y: string)
    requires Described(lookup, flow, desc)
    ensures Described(lookup, flow + [x, y], desc + [Describe(lookup, x), Describe(lookup, y)])
  {
  }

  /** The flow column is the flattened path; the description column is as
      long, and shows each id's description or "". */
  method FlattenPathWithDescriptions(segments: seq<PathSegment>, descriptionLookup: map<string, string>)
    returns (flowList: seq<string>, descList: seq<string>)
    ensures flowList == Flattened(segments)
    ensures Described(descriptionLookup, flowList, descList)
  {
    if |segments| == 0 {
      return [], [];
    }
    var sourceId := segments[0].source;
    flowList := [sourceId];
    descList := [Describe(descriptionLookup, sourceId)];
    for i := 0 to |segments|
      invariant flowList == [segments[0].source] + FlatTail(segments[..i])
      invariant Described(descriptionLookup, flowList, descList)
    {
      FlatTailNext(segments, i);
      var actionId := segments[i].action;
      var targetId := segments[i].target;
      DescribedNext(descriptionLookup, flowList, descList, actionId, targetId);
      flowList := flowList + [actionId, targetId];
      descList := descList + [Describe(descriptionLookup, actionId), Describe(descriptionLookup, targetId)];
    }
    assert segments[..|segments|] == segments;
  }

  // ---------------------------------------------------------------------------
  // The columns of one priority tab.

  /** A cell of the sheet: None is an empty cell. */
  type Column = seq<Option<string>>

  function Cells(xs: seq<string>): (c: Column)
    ensures |c| == |xs| && forall i :: 0 <= i < |xs| ==> c[i] == Some(xs[i])
  {
    if xs == [] then [] else Cells(xs[..|xs| - 1]) + [Some(xs[|xs| - 1])]
  }

  function Blanks(n: nat): (c: Column)
    ensures |c| == n && forall i :: 0 <= i < n ==> c[i] == None
  {
    if n == 0 then [] else Blanks(n - 1) + [None]
  }

  /** `P1.3` for the third P1 path. */
  function ColumnPrefix(p: PriorityPath): string {
    p.priorityLevel + "." + Decimal(p.pathIndex)
  }

  /** The three column names of each path, in path order. */
  function ColumnNames(paths: seq<PriorityPath>): (names: seq<string>)
    ensures |names| == 3 * |paths|
    ensures forall i :: 0 <= i < |paths| ==>
      names[3 * i] == ColumnPrefix(paths[i]) && names[3 * i + 1] == ColumnPrefix(paths[i]) + "_Desc"
      && names[3 * i + 2] == ColumnPrefix(paths[i]) + "_Blank"
  {
    if paths == [] then []
    else
      var front := paths[..|paths| - 1];
      var prefix := ColumnPrefix(paths[|paths| - 1]);
      assert forall i :: 0 <= i < |front| ==> front[i] == paths[i];
      ColumnNames(front) + [prefix, prefix + "_Desc", prefix + "_Blank"]
  }

  /** The three columns of one path: its flow, the descriptions and a blank
      column as long as the flow. */
  function AddPath(data: map<string, Column>, p: PriorityPath, lookup: map<string, string>): (r: map<string, Column>)
  {
    var prefix, flow := ColumnPrefix(p), Flattened(p.segments);
    data[prefix := Cells(flow)][prefix + "_Desc" := Cells(Descriptions(lookup, flow))][prefix + "_Blank" := Blanks(|flow|)]
  }

  /** The data dictionary after the paths' columns are added in order. */
  function ColumnData(paths: seq<PriorityPath>, lookup: map<string, string>): (data: map<string, Column>)
  {
    if paths == [] then map[] else AddPath(ColumnData(paths[..|paths| - 1], lookup), paths[|paths| - 1], lookup)
  }

  /** The data dictionary holds exactly the named columns. */
  lemma {:induction false} ColumnKeys(paths: seq<PriorityPath>, lookup: map<string, string>)
    ensures ColumnData(paths, lookup).Keys == set i | 0 <= i < |ColumnNames(paths)| :: ColumnNames(paths)[i]
  {
    if paths != [] {
      var front := paths[..|paths| - 1];
      ColumnKeys(front, lookup);
      var names, frontNames := ColumnNames(paths), ColumnNames(front);
      assert names == frontNames + names[3 * |front|..];
      assert forall i :: 0 <= i < |frontNames| ==> names[i] == frontNames[i];
    }
  }

  /** Level names without '_', as the report's `P0` to `P3`. */
  predicate PlainLevels(paths: seq<PriorityPath>) {
    forall i :: 0 <= i < |paths| ==> forall j :: 0 <= j < |paths[i].priorityLevel| ==> paths[i].priorityLevel[j] != '_'
  }

  lemma DecimalNoUnderscore(n: nat)
    ensures forall j :: 0 <= j < |Decimal(n)| ==> Decimal(n)[j] != '_'
  {
  }

  /** A flow column's name never ends like a description or blank column's. */
  lemma PrefixKinds(p: PriorityPath, q: PriorityPath)
    requires forall j :: 0 <= j < |p.priorityLevel| ==> p.priorityLevel[j] != '_'
    ensures ColumnPrefix(p) != ColumnPrefix(q) + "_Desc" && ColumnPrefix(p) != ColumnPrefix(q) + "_Blank"
    ensures ColumnPrefix(p) + "_Desc" != ColumnPrefix(q) + "_Blank"
  {
    var a, b := ColumnPrefix(p), ColumnPrefix(q);
    DecimalNoUnderscore(p.pathIndex);
    assert forall j :: 0 <= j < |a| ==> a[j] != '_';
    assert (b + "_Desc")[|b|] == '_';
    assert (b + "_Blank")[|b|] == '_';
    assert (a + "_Desc")[|a + "_Desc"| - 1] == 'c';
    assert (b + "_Blank")[|b + "_Blank"| - 1] == 'k';
  }

  /** The path whose flow column is named prefix has its three columns, the
      blank one all None and as long as the flow, and so is the description. */
  predicate BlankAt(data: map<string, Column>, prefix: string) {
    prefix in data && prefix + "_Desc" in data && prefix + "_Blank" in data
    && data[prefix + "_Blank"] == Blanks(|data[prefix]|) && |data[prefix + "_Desc"]| == |data[prefix]|
  }

  lemma AddPathMakes(data: map<string, Column>, p: PriorityPath, lookup: map<string, string>)
    ensures BlankAt(AddPath(data, p, lookup), ColumnPrefix(p))
  {
    var prefix := ColumnPrefix(p);
    assert (prefix + "_Desc")[|prefix + "_Desc"| - 1] == 'c';
    assert (prefix + "_Blank")[|prefix + "_Blank"| - 1] == 'k';
  }

  lemma AddPathKeeps(data: map<string, Column>, p: PriorityPath, q: PriorityPath, lookup: map<string, string>)
    requires BlankAt(data, ColumnPrefix(q)) && ColumnPrefix(p) != ColumnPrefix(q)
    requires forall j :: 0 <= j < |p.priorityLevel| ==> p.priorityLevel[j] != '_'
    requires forall j :: 0 <= j < |q.priorityLevel| ==> q.priorityLevel[j] != '_'
    ensures BlankAt(AddPath(data, p, lookup), ColumnPrefix(q))
  {
    PrefixKinds(p, q);
    PrefixKinds(q, p);
    var a, b := ColumnPrefix(p), ColumnPrefix(q);
    assert a + "_Desc" != b + "_Desc" by { assert (a + "_Desc")[..|a|] == a; assert (b + "_Desc")[..|b|] == b; }
    assert a + "_Blank" != b + "_Blank" by { assert (a + "_Blank")[..|a|] == a; assert (b + "_Blank")[..|b|] == b; }
  }

  /** Every path's blank column is all None and as long as its flow column,
      and so is its description column. */
  lemma {:induction false} BlankColumns(paths: seq<PriorityPath>, lookup: map<string, string>, i: nat)
    requires i < |paths| && PlainLevels(paths)
    ensures BlankAt(ColumnData(paths, lookup), ColumnPrefix(paths[i]))
  {
    var last := paths[|paths| - 1];
    var front := paths[..|paths| - 1];
    if ColumnPrefix(last) == ColumnPrefix(paths[i]) {
      AddPathMakes(ColumnData(front, lookup), last, lookup);
    } else {
      assert i < |front| && front[i] == paths[i];
      assert PlainLevels(front) by {
        assert forall j :: 0 <= j < |front| ==> front[j] == paths[j];
      }
      BlankColumns(front, lookup, i);
      AddPathKeeps(ColumnData(front, lookup), last, paths[i], lookup);
    }
  }

  lemma ColumnNamesNext(paths: seq<PriorityPath>, i: nat)
    requires i < |paths|
    ensures var prefix := ColumnPrefix(paths[i]);
      ColumnNames(paths[..i + 1]) == ColumnNames(paths[..i]) + [prefix, prefix + "_Desc", prefix + "_Blank"]
  {
    assert paths[..i + 1][..i] == paths[..i];
  }

  lemma ColumnDataNext(paths: seq<PriorityPath>, lookup: map<string, string>, i: nat)
    requires i < |paths|
    ensures ColumnData(paths[..i + 1], lookup) == AddPath(ColumnData(paths[..i], lookup), paths[i], lookup)
  {
    assert paths[..i + 1][..i] == paths[..i];
  }

  /** The loop over a tab's paths in _create_excel_from_priority. */
  method BuildColumns(pathList: seq<PriorityPath>, descriptionLookup: map<string, string>)
    returns (data: map<string, Column>, allColumnNames: seq<string>)
    ensures data == ColumnData(pathList, descriptionLookup)
    ensures allColumnNames == ColumnNames(pathList)
  {
    data := map[];
    allColumnNames := [];
    for i := 0 to |pathList|
      invariant data == ColumnData(pathList[..i], descriptionLookup)
      invariant allColumnNames == ColumnNames(pathList[..i])
    {
      ColumnDataNext(pathList, descriptionLookup, i);
      ColumnNamesNext(pathList, i);
      var colPrefix := pathList[i].priorityLevel + "." + Decimal(pathList[i].pathIndex);
      var flowList, descList := FlattenPathWithDescriptions(pathList[i].segments, descriptionLookup);
      assert descList == Descriptions(descriptionLookup, flowList);
      data := data[colPrefix := Cells(flowList)];
      data := data[colPrefix + "_Desc" := Cells(descList)];
      data := data[colPrefix + "_Blank" := Blanks(|flowList|)];
      allColumnNames := allColumnNames + [colPrefix, colPrefix + "_Desc", colPrefix + "_Blank"];
    }
    assert pathList[..|pathList|] == pathList;
  }

  // ---------------------------------------------------------------------------
  // Padding.

  /** m is the length of the longest column. */
  predicate Longest(data: map<string, Column>, m: nat) {
    (forall k :: k in data ==> |data[k]| <= m) && exists k :: k in data && |data[k]| == m
  }

  method MaxLength(data: map<string, Column>) returns (m: nat)
    requires data != map[]
    ensures Longest(data, m)
  {
    var k0 :| k0 in data;
    m := |data[k0]|;
    var seen := {k0};
    var rest := data.Keys - {k0};
    while rest != {}
      invariant seen + rest == data.Keys && seen * rest == {}
      invariant k0 in seen && exists k :: k in seen && |data[k]| == m
      invariant forall k :: k in seen ==> |data[k]| <= m
      decreases |rest|
    {
      var k :| k in rest;
      if |data[k]| > m {
        m := |data[k]|;
      }
      seen := seen + {k};
      rest := rest - {k};
    }
  }

  /** The padding step: every column keeps its cells and gets empty ones
      until it is as long as the longest column. */
  method PadColumns(data: map<string, Column>) returns (padded: map<string, Column>)
    ensures padded.Keys == data.Keys
    ensures forall k :: k in data ==> data[k] <= padded[k] && Longest(data, |padded[k]|)
    ensures forall k, j :: k in data && |data[k]| <= j < |padded[k]| ==> padded[k][j] == None
  {
    padded := data;
    if data == map[] {
      return;
    }
    var maxLength := MaxLength(data);
    var rest := data.Keys;
    while rest != {}
      invariant rest <= data.Keys && padded.Keys == data.Keys
      invariant forall k :: k in rest ==> padded[k] == data[k]
      invariant forall k :: k in data && k !in rest ==> padded[k] == data[k] + Blanks(maxLength - |data[k]|)
      decreases |rest|
    {
      var colName :| colName in rest;
      var currentLength := |padded[colName]|;
      if currentLength < maxLength {
        padded := padded[colName := padded[colName] + Blanks(maxLength - currentLength)];
      } else {
        assert data[colName] + Blanks(0) == data[colName];
      }
      rest := rest - {colName};
    }
    assert forall k :: k in data ==> |padded[k]| == maxLength;
  }
}
