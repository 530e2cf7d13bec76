# QA-Eval path analysis, modelled in Dafny

QA-Eval checks the conversation flow of a voice agent. It turns the agent's
finite-state machine into a DOT flowchart and derives test paths from it. This
project models the path-analysis engine and the pure helpers around it.

The engine is `generate_path_analysis` in `script_3_ana.py`. It runs in five
steps:

1. It reads the `SOURCE -> TARGET [label="ACTION"]` edges of the flowchart.
2. It checks that the start and end states exist.
3. It enumerates paths from start to end by a depth-first search. The search
   lets no state be entered more than twice, counted by the visit counts it
   carries. Siblings share those counts (see below).
4. It clusters the paths by the `difflib.SequenceMatcher` similarity of their
   state signatures: an archetype (P0), major variations (P1) and near-copies
   (P2).
5. It re-buckets the clustered paths by edge coverage: golden paths (P0),
   required variations (P1), loop stress tests (P2) and an archive (P3). Then
   it writes the prioritised text report.

Around the engine the model covers these helpers:

- the two report readers (`PriorityReportParser` and the legacy
  `ReportParser`) and `extract_path_elements`;
- the Excel export's path flattening, sheet-name sanitising, description
  lookup and column building;
- the results view's one-line path text and header totals;
- the interactive flowchart's edge labels and per-pair edge counter;
- `normalize_line_breaks`;
- the run history's MIME types, saved counts and previews, and the test that
  picks a report reader.

There is one module per source component:

| Module | Models |
|---|---|
| `Ingest` | Edge reading |
| `Enumerate` | Path enumeration |
| `Signature` | Path signatures |
| `Matcher` | `SequenceMatcher.ratio` |
| `Cluster` | Clustering |
| `Prioritize` | Prioritisation |
| `Report` | The report writer |
| `Parser` | `PriorityReportParser` and its path reader |
| `ReadBack` | Writer against reader |
| `Legacy` | `ReportParser` |
| `Excel` | The Excel export helpers |
| `Results` | The results view |
| `Viz` | The interactive flowchart's edges |
| `App` | `normalize_line_breaks` |
| `History` | The run history |
| `Pipeline` | `generate_path_analysis` as a whole |

`Text`, `Graph` and `Common` hold shared character classes, the edge type
and subsequences.

Code that works step by step is modelled as methods with loop invariants,
each proved equal to a specification function. That covers the accumulator
loops, the greedy prioritisation loops, the visit-count search and the
padding step. The report readers are classes whose `parse` sets
`report_text`. The properties are lemmas about the specification functions.

The path search writes a neighbour's visit count into the parent's map
before copying it (`script_3_ana.py:49`). Later siblings therefore inherit
earlier siblings' visits. `Enumerate.SiblingCountsShared` exhibits a path
that enters a state only twice and is still not enumerated.

## Model

| member | source | states |
|---|---|---|
| Ingest.ExtractEdge | script_3_ana.py:15-26 | A line that matches yields an edge. Both states are `\w` words and the line holds `->`. The action is the captured label (non-empty, no quote, no `]`) or AUTO_PROCEED. |
| Ingest.ExtractAll | script_3_ana.py:19-26 | The edge list has at most one edge per line, and every edge is well formed. |
| Ingest.ParseDotLines | script_3_ana.py:6-31 | The per-line loop collects exactly the edges of the matching lines, in line order. |
| Ingest.ActionOf | script_3_ana.py:25 | The label part gives a non-empty action: either AUTO_PROCEED or text made only of label characters. |
| Ingest.ExtractDotLine | script_3_ana.py:15 | A DOT line written for an edge with a plain label reads back as that edge. |
| Ingest.ExtractIndentedDotLine | script_3_ana.py:20 | Indentation before the edge does not change what is read, because `search` finds the edge anywhere. |
| Ingest.ExtractBareDotLine | script_3_ana.py:25 | An unlabelled edge line reads back with the action AUTO_PROCEED. |
| Ingest.ExtractAllDotLines | script_3_ana.py:6-31 | The DOT lines of a graph with plain labels read back as the graph's edge list. |
| Ingest.ExtractedBracketless | script_3_ana.py:15 | No edge read from DOT lines has a `]` in its states or its action, because states are `\w` words and the label excludes `]`. |
| Enumerate.FindPaths | script_3_ana.py:34-57 | The recursive generator, with its neighbour loop and the count written into the parent's map, yields exactly the specification's list of paths, in order. |
| Enumerate.FollowEdges | script_3_ana.py:52-57 | Every parallel edge to a neighbour gets one recursive call, each with a copy of the same counts. |
| Enumerate.EnumeratedPathsValid | script_3_ana.py:34-57 | Every enumerated path is non-empty exactly when start differs from end. It starts at start and ends at end, uses graph edges and chains. It reaches end only at its last step, and no state occurs more than twice in start plus the targets. |
| Enumerate.SharedCountsBranches | script_3_ana.py:44-49 | In a small two-branch graph, every enumerated path either enters A first or, coming through the other branch, enters A at most once. |
| Enumerate.SiblingCountsShared | script_3_ana.py:49 | A path that enters A only twice is still not enumerated, because the sibling branch's visit leaked into the shared map. |
| Signature.GetPathSignature | script_3_ana.py:85-99 | The comprehensions and the collapsing loop compute the path's signature. |
| Signature.SignatureSpec | script_3_ana.py:92-99 | The signature holds neither start nor end and never repeats a state twice in a row. It is a subsequence of the path's states and holds exactly the path's other states. |
| Matcher.LongestMatchSpec | script_3_ana.py:124 | find_longest_match returns a common block that no other block in the range is longer than. Among the longest blocks it is the earliest in a, then the earliest in b. |
| Matcher.MatchedIn | script_3_ana.py:124 | The matched count is bounded by both ranges and is at least the longest block. It is zero exactly when no block matches. |
| Matcher.Ratio | script_3_ana.py:125 | The ratio lies between 0 and 1. |
| Matcher.RatioOfEqual | script_3_ana.py:125 | A signature compared with itself scores 1. |
| Matcher.RatioZeroIffDisjoint | script_3_ana.py:125 | The score is 0 exactly when the two signatures share no state (for signatures that are not both empty). |
| Cluster.Records | script_3_ana.py:104-110 | Each path gets one record holding the path, its signature and its length, in path order. |
| Cluster.SortByLength | script_3_ana.py:111 | Sorting keeps the records as a permutation. |
| Cluster.SortByLengthSorted | script_3_ana.py:111 | The sorted records are in ascending length order. |
| Cluster.SortByLengthStable | script_3_ana.py:111 | Records of equal length keep their relative order. |
| Cluster.BestOfSpec | script_3_ana.py:119-130 | Pass 1 finds the cluster with the highest score, the earliest one on ties. It finds none exactly when no score beats the initial -1.0; a ratio never falls that low, so in practice only when there are no clusters. |
| Cluster.BestUnique | script_3_ana.py:128-130 | There is only one best cluster. |
| Cluster.PlaceSpec | script_3_ana.py:132-139 | A new cluster is opened exactly when every archetype scores below 0.70. Otherwise the record joins the best cluster: its P2 from 0.95 up, its P1 from 0.70 to 0.95. |
| Cluster.ClusterAllPartition | script_3_ana.py:113-141 | Every record lands in exactly one archetype, P1 or P2 slot. |
| Cluster.ClusterAllExtends | script_3_ana.py:113-141 | Later records never replace an archetype or remove a member. Clusters only grow, and new ones are appended. |
| Cluster.ClusterAllAscending | script_3_ana.py:111-139 | Over sorted input, every cluster's archetype and members are in ascending length order. |
| Cluster.ClusterPaths | script_3_ana.py:101-141 | cluster_paths builds the records, sorts them and places each one, using the SequenceMatcher ratio. |
| Cluster.ClusterPathsSpec | script_3_ana.py:101-141 | The clusters of the enumerated paths hold every path exactly once, each in ascending length order. |
| Cluster.PlaceAll | script_3_ana.py:115-139 | The loop that scores each record against every archetype and then places it computes the clustering. |
| Prioritize.HarvestEdges | script_3_ana.py:155-159 | _harvest_edges adds exactly the edges of the given paths. |
| Prioritize.GatherClusters | script_3_ana.py:165-171 | The archetypes, in cluster order, are the P0 candidates. Each cluster's P1 members, then its P2 members, form the candidate pool. |
| Prioritize.SplitEdges | script_3_ana.py:181-186 | The harvested edges split into self-loops and the rest. |
| Prioritize.GoldenPaths | script_3_ana.py:192-201 | Phase 1 keeps every archetype as P0 and covers exactly their edges. |
| Prioritize.ScanGainSpec | script_3_ana.py:224-237 | The scan picks a candidate with the most still-uncovered linear edges, preferring the shorter path and then the earlier one. It picks none exactly when no candidate covers a new edge. |
| Prioritize.DiscoverLinear | script_3_ana.py:204-254 | The phase 2 loop computes the specification's greedy selection. |
| Prioritize.DiscoverSpec | script_3_ana.py:204-254 | Phase 2 covers every linear edge and gives up on none. It moves paths from the pool to P1, losing none and keeping the remaining pool's order. |
| Prioritize.ScanLoopSpec | script_3_ana.py:281-287 | The scan finds a shortest candidate through the target loop, the earliest on equal length. It finds none exactly when no candidate holds the loop. |
| Prioritize.StressLoops | script_3_ana.py:257-306 | The phase 3 loop, with an arbitrary choice of target loop, computes the specification's selection. |
| Prioritize.StressSpec | script_3_ana.py:257-306 | Phase 3 covers every self-loop edge and gives up on none. It moves paths from the pool to P2, losing none and keeping the pool's order. |
| Prioritize.PrioritizePaths | script_3_ana.py:146-324 | prioritize_paths computes the specification's buckets, skipped lists and stats. |
| Prioritize.PrioritizedKeeps | script_3_ana.py:165-324 | P0 is the archetypes in cluster order. The four buckets together are a permutation of the archetypes plus the pool. P3 keeps the pool's order, and the stats are the four bucket lengths. |
| Prioritize.PrioritizedCovers | script_3_ana.py:174-308 | Both skipped lists are empty. Every harvested edge lies on a P0, P1 or P2 path, so every P3 path's edges are already covered. |
| Report.FormatDiffPath | script_3_ana.py:71-83 | The loop builds the formatted path text, which the report reader parses back (Parser.SegmentsOfFormat). |
| Report.FormatPath | script_3_ana.py:77-83 | The text opens with `(` and closes with `)`. |
| Report.FormatWithoutBreaks | script_3_ana.py:80-82 | With its line breaks removed, the formatted path is the one-line form. |
| Report.Assemble | script_3_ana.py:387-432 | The report (Report.ReportText assembles it from its parts) opens with the title and the `Final Counts` line, and ends with the archive's `Total:` line when no warning follows. Read back, it gives the counts it was written with (ReadBack.StatsRoundTrip), it is taken for a priority report (History.GeneratedIsPriority), and it lists no P3 paths (ReadBack.ArchiveNotListed). For the report of a successful analysis all three hold outright (Pipeline.AnalyzedReadBack). |
| Parser.Tuples | services/report_parser.py:32-39 | raw_tuples mirror the segments, one (source, target, action) per segment. |
| Parser.ParsePathSegments | services/report_parser.py:285-317 | The normalisation, the start match and the transition loop compute the segments. |
| Parser.Segments | services/report_parser.py:290-298 | Empty or blank text gives no segments. |
| Parser.SegmentsChain | services/report_parser.py:285-317 | The first segment starts at the leading `(STATE)` and each segment starts where the previous one ended. States are words, actions are non-empty text without `]`, and no tag is set. |
| Parser.NormalizeFormat | services/report_parser.py:290 | The reader's newline normalisation turns format_diff_path's text into the one-line form. |
| Parser.SegmentsOfFormat | services/report_parser.py:303-315 | Parsing format_diff_path's text gives back any chained path of word states and non-empty one-line actions without `]`. |
| Parser.OneLineParts | services/report_parser.py:295-303 | The one-line form of a readable path contains a `(`, its leading `(STATE)` is the first state, and findall of the transition pattern gives its (action, target) pairs in order. |
| Parser.TransitionsStep | services/report_parser.py:302-303 | findall reads one written step, leading space included, as its (action, target) pair, then goes on with the text after it. |
| Parser.TransitionAtStep | services/report_parser.py:302 | The transition pattern matches a written step with a readable action and a word target exactly. It captures the action and the target. |
| Parser.Elements | services/report_parser.py:154-193 | No segments give no elements. Otherwise there are 2n+1 elements, states and actions alternating, starting and ending with a state. |
| Parser.ExtractPathElements | services/report_parser.py:154-193 | The loop builds exactly those elements. |
| Parser.StatsOf | services/report_parser.py:230-242 | The four counts of the first stats header, or all zeros without one. |
| Parser.PriorityReportParser.ParseStats | services/report_parser.py:230-242 | The method gives the counts of the first stats header in the parser's text (Parser.StatsOf), and zeros when there is no header. |
| Parser.PrioritySection | services/report_parser.py:244-283 | A missing section gives no paths. Otherwise each entry after the header becomes a path with the declared index and length, raw tuples mirroring its segments, and an empty signature. |
| Parser.SectionPathAt | services/report_parser.py:258-281 | The i-th path of a present section comes from the i-th entry after its header. It has the section's level, the entry's declared index and length, segments parsed from the stripped entry text, raw tuples mirroring them and an empty signature. |
| Parser.PriorityReportParser.ParsePrioritySection | services/report_parser.py:244-283 | The method computes the section's paths. |
| Parser.SkippedOf | services/report_parser.py:319-341 | Both skipped lists are always empty. |
| Parser.PriorityReportParser.ParseSkipped | services/report_parser.py:319-341 | The method returns two empty lists. |
| Parser.PriorityReportParser.Parse | services/report_parser.py:203-228 | parse stores the report text and returns the collection of its stats, sections and skipped lists. |
| ReadBack.StatsRoundTrip | services/report_parser.py:230-242 | _parse_stats on a generated report gives back the counts it was written with. |
| ReadBack.ReportNoP3 | script_3_ana.py:387-432 | A generated report contains no `P3.` anywhere when its P0, P1 and P2 paths hold no `.` in state names and no `3.` in actions, and each skipped set it prints is shown without `3.`. |
| ReadBack.ArchiveNotListed | script_3_ana.py:395-423 | The reader finds no P3 paths in a generated report whose P0, P1 and P2 paths have states and actions without `]`, when each skipped set the report prints is shown without `3.`. The writer prints only the archive's total after the P3 title. |
| ReadBack.ListedAfter | services/report_parser.py:249-254 | The P3 section is searched from the first P3 header. Text before it that ends a line and holds no `3] ` cannot hold that header, and no `P3.` after the header's match means no P3 paths. |
| ReadBack.ReadableBracketless | services/report_parser.py:296-304 | The paths the reader can parse back have states and actions without `]`. |
| ReadBack.GeneratedReport | services/report_parser.py:203-228 | Under the conditions of ReadBack.ArchiveNotListed, reading a generated report gives back its stats, no P3 paths and no skipped lists. |
| Legacy.ReportParser.Parse | services/report_parser.py:68-85 | parse stores the text and returns one cluster per archetype block. |
| Legacy.ArchetypeIds | services/report_parser.py:76-83 | There is one cluster per `--- [P0] ARCHETYPE #k` marker, with `archetype_id == k`, in order of appearance. |
| Legacy.BlockNumbers | services/report_parser.py:76 | The blocks carry the marker numbers in order. |
| Legacy.ReportParser.ParseBlocks | services/report_parser.py:79-83 | The block loop gives one cluster per block. |
| Legacy.ReportParser.ParseClusterBlock | services/report_parser.py:87-114 | The method computes the block's cluster. |
| Legacy.ClusterShape | services/report_parser.py:87-114 | The P0 path is `P0-k`, with length 0 and no segments when the block has no P0 match. A variation's length is its segment count. |
| Legacy.ReportParser.ParseVariants | services/report_parser.py:97-112 | The P1 or P2 part reads the variations listed in the section. |
| Excel.Flattened | services/excel_service.py:7-34 | No segments give `[]`. Otherwise the column is `[src0, a0, t0, a1, t1, …]` of length 2n+1. |
| Excel.FlattenPathToStrings | services/excel_service.py:7-34 | The loop builds exactly that column. |
| Excel.FlattenedTexts | services/excel_service.py:24-34 | The flattened column lists the texts of extract_path_elements. |
| Excel.SanitizeSheetName | services/excel_service.py:37-60 | The name is non-empty, at most 31 characters and free of `[ ] : * ? / \`. An empty or blank filtered name becomes `Sheet`. Otherwise the name is the filtered name's prefix of length min(31, length). |
| Excel.SanitizeAgain | services/excel_service.py:53-60 | Sanitising again changes nothing unless the cut left only white space. |
| Excel.SanitizeNotIdempotent | services/excel_service.py:56-60 | 31 spaces and a letter sanitise to 31 spaces, which sanitise to `Sheet`. |
| Excel.AddEntries | services/excel_service.py:85-98 | The lookup holds the earlier keys plus the id of every entry that has one. |
| Excel.LastEntryWins | services/excel_service.py:85-98 | The last entry with an id decides its description. |
| Excel.OtherEntriesKeep | services/excel_service.py:85-98 | Entries with other ids leave a description alone. |
| Excel.IntentOverrides | services/excel_service.py:93-98 | An intent overrides a state with the same id. |
| Excel.StateKept | services/excel_service.py:85-90 | A state that no intent names keeps its own description. |
| Excel.BuildDescriptionLookup | services/excel_service.py:63-100 | The loops compute the lookup, which is empty when there is no vocabulary. |
| Excel.FlattenPathWithDescriptions | services/excel_service.py:103-150 | The flow column is the flattened path. The description column is as long, and each cell is the id's description or "". |
| Excel.ColumnNames | services/excel_service.py:320-336 | Each path contributes `prefix`, `prefix_Desc` and `prefix_Blank`, in path order. |
| Excel.ColumnKeys | services/excel_service.py:320-336 | The data holds exactly the named columns. |
| Excel.BlankColumns | services/excel_service.py:332-334 | Every path's blank column is all None and as long as its flow column, and so is its description column. |
| Excel.BuildColumns | services/excel_service.py:320-336 | The loop over a tab's paths builds that data and those names. |
| Excel.MaxLength | services/excel_service.py:340 | The result is the length of the longest column. |
| Excel.PadColumns | services/excel_service.py:338-344 | Every column keeps its cells as a prefix and reaches the longest column's length. The added cells are None and no column is added or removed. |
| Results.RenderPathText | components/results_zone.py:103-113 | No segments give "". Otherwise the text is `(src0)` followed by one ` --[action]--> (target)` per segment. |
| Results.OneLinePlain | components/results_zone.py:103-113 | The rendered text of a readable path has no newline and no white space at either end. |
| Results.RenderedReadBack | components/results_zone.py:103-113 | The report reader parses the rendered text back into the same steps. |
| Results.PriorityTotalCounts | components/results_zone.py:119-120 | The priority header total counts every clustered path exactly once. |
| Results.LegacyTotalSplit | components/results_zone.py:8-19 | The legacy total Σ(1 + \|p1\| + \|p2\|) is the archetype count plus the P1 and P2 totals. |
| Results.LegacyArchetypes | components/results_zone.py:8 | A parsed legacy report's total is at least its number of archetype markers. |
| Viz.TruncateLabel | script_viz_interactive.py:29-41 | A missing or empty text gives ("", ""). The tooltip is the stripped text. Within the limit the label equals the tooltip; over it, the label is the first `length` characters plus `...`. |
| Viz.TruncateShortens | script_viz_interactive.py:40-41 | A text more than three characters over the limit gets a shorter label. |
| Viz.TruncateStable | script_viz_interactive.py:38-39 | A label already within the limit truncates to itself. |
| Viz.AddEdges | script_viz_interactive.py:86-110 | The loop skips transitions without both states. It turns every other transition into an edge and ends with the counter of the drawn pairs. |
| Viz.EdgesOfSpec | script_viz_interactive.py:98-110 | The k-th drawn transition becomes an edge between its stripped states, labelled by truncate_label. Its count is the number of earlier drawn transitions between the same states. |
| Viz.TallyCounts | script_viz_interactive.py:109-110 | The counter holds exactly the pairs that occur, each with its number of occurrences. |
| Viz.OccurrencesCount | script_viz_interactive.py:109-110 | The occurrence count is the number of positions holding the pair. |
| App.NormalizeLineBreaks | app.py:43 | The output is never longer than the input. |
| App.NoTripleOut | app.py:43 | The output never holds three newlines in a row. |
| App.LeadOut | app.py:43 | A leading run of three or more newlines becomes two. A shorter run is kept. |
| App.NormalizeAround | app.py:43 | No run crosses a character that is not a newline. The text before it and the text after it are normalised independently, and the character is kept between them. |
| App.NormalizeRun | app.py:43 | A run of three or more newlines becomes exactly two newlines, and a shorter run is kept. With App.NormalizeAround this fixes the output of every text. |
| App.OthersKept | app.py:43 | Every character other than a newline is kept, in order. |
| App.NormalizeKeeps | app.py:43 | Text without three newlines in a row comes back unchanged. |
| App.NormalizeIdempotent | app.py:30-44 | Normalising twice is normalising once. |
| History.MimeType | services/history_service.py:232-241 | `.png`, `.html` and `.xlsx` each map to their own type, and exactly the other names map to `application/octet-stream`. |
| History.UploadTypes | services/history_service.py:232-241 | The three uploaded artifacts get the PNG, HTML and spreadsheet types. |
| History.MetadataCounts | services/history_service.py:116-150 | The archetype count never exceeds the path count. For each stats-carrying form they are p0_count and the sum of the four counts; for the legacy list they are the cluster count and Σ(1 + \|p1\| + \|p2\|). |
| History.CollectionCounts | services/history_service.py:135-143 | For a priority collection the counts are p0_count and the sum of the four counts. |
| History.Preview | services/history_service.py:155-156 | The preview is a prefix of the prompt: the whole prompt up to 100 characters, otherwise exactly the first 100. |
| History.BodyHasP0 | script_3_ana.py:395 | A report body opens with the P0 section header. |
| History.GeneratedIsPriority | services/history_service.py:273 | Every generated report is detected as a priority-format report. |
| History.LoadParsed | services/history_service.py:271-282 | The priority reader is used exactly when the P0 header is present, and the legacy reader otherwise. |
| History.ReloadedCounts | services/history_service.py:271-282 | A generated report, saved and loaded again, goes to the priority reader and gives back the stats it was written with. |
| Pipeline.GeneratePathAnalysis | script_3_ana.py:327-432 | The method performs the parse, the state check, enumeration, clustering, prioritisation and the report text, and computes the specified analysis. |
| Pipeline.AnalyzeFails | script_3_ana.py:350-351 | The analysis fails with MissingNode exactly when an end state is missing, and with EmptyPath exactly when both are the same existing state. It succeeds otherwise. |
| Pipeline.AnalyzeKeepsPaths | script_3_ana.py:353-384 | A successful analysis buckets every enumerated path exactly once, and its counts add up to the number of enumerated paths. |
| Pipeline.BucketsKeepPaths | script_3_ana.py:353-384 | The four buckets are a permutation of the enumerated paths' records. |
| Pipeline.BucketsWritable | script_3_ana.py:384-419 | Every bucketed path has an edge, so the writer can format it. |
| Pipeline.BucketsBracketless | script_3_ana.py:15-26 | The bucketed paths are made of edges read from the DOT lines, so their states and actions hold no `]`. |
| Pipeline.AnalyzedReadBack | script_3_ana.py:387-432 | The report of a successful analysis reads back with the counts it was written with, no P3 paths and no skipped lists. |
| Pipeline.EnumeratedSame | script_3_ana.py:353-354 | With start equal to end the enumeration yields only the empty path, which get_path_signature cannot index. |

## Left out

- File and network I/O are not modelled: the `open` calls, the temporary file in the history loader, Supabase storage and the database. The readers and the writer work on text, and the Excel export ends at the column data (pandas and `ExcelWriter` are not modelled).
- The Streamlit rendering of the results view and everything else in the components, apart from `render_path_text` and the totals, are not modelled.
- networkx's MultiDiGraph is modelled as the edge list. Successors come in first-insertion order of targets, and parallel edges in insertion order.
- `\w` and `\d` are taken as ASCII. `\s` and `str.isspace` are modelled over the Unicode white-space characters.
- Python's set iteration order is not modelled. `next(iter(uncovered_loops))` becomes an arbitrary choice `pick`, and the printed skipped sets become a rendering parameter `show`.
- Prioritize.PrioritizePaths: the skipped lists are sets, not lists in set order. That order is unobservable, since both lists are proved empty.
- The similarity ratio is an exact rational number, not a float. Ties and thresholds are decided without rounding.
- difflib's autojunk heuristic is left out. It changes nothing here. It applies only to a second sequence of n >= 200 elements. It then junks only elements that occur more than n // 100 + 1 times, and that bound is at least 3. A signature holds each state at most twice: it is a subsequence of the path's states other than start and end (Signature.SignatureSpec), and the search enters no state more than twice (Enumerate.EnumeratedPathsValid).
- The `p0_tuples` argument of `format_diff_path` is ignored by the source, so it is not modelled.
- `PathSegment` tags and tag types are always None, because neither reader sets them.
- Parser.SegmentsOfFormat: the round trip is proved for readable paths, meaning word states and actions without `]` or a line break. The writer can print other actions that the reader would not give back.
- ReadBack.ArchiveNotListed: a non-empty skipped set is assumed to be shown without `3.`. The warning follows the archive's title, and an action such as `P3.1 (Length: 2):` shown there would be read as a P3 path. The analysis never skips anything (Prioritize.PrioritizedCovers), so Pipeline.AnalyzedReadBack needs no such assumption.
- ReadBack.GeneratedReport: it carries the same assumption on the skipped sets the report shows, for the same reason.
- Legacy.ReportParser.Parse: the `re.split` result is modelled as (number, block) pairs, not the flat list it alternates in.
- The cluster-based Excel builder `_create_excel_from_clusters` is not modelled. Its padding (`services/excel_service.py:249-256`) is the same step as `Excel.PadColumns`.
- A JSON `null` description is treated like a missing one.
- `generate_interactive_graph` is modelled only up to its edge counter. The float `roundness` is represented by the count it is computed from, and the layout, physics and HTML output are not modelled.
- History.MetadataCounts: the three stats-carrying forms (the wrapper object, the raw dict and the collection) are modelled as one stats value each. The cost and timestamp fields of the metadata are not modelled.
- The start == end case: `get_path_signature` raises IndexError on the empty path, which the model returns as `Err(EmptyPath)`. A missing state's ValueError is `Err(MissingNode)`, without its message.
- The commented-out legacy report writer in `generate_path_analysis` is not modelled.
