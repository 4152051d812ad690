# gtk-queries core, modelled in Dafny

gtk-queries is a desktop SQL client. Its user writes queries in an editor,
and the results come back as tables. Those tables can then be plotted in a
layout of up to four plot areas. This project models the application's
deterministic logic, without the widgets. The model covers five groups of
components:

- **The plot layout pipeline.** The layout reader script reads the layout
  XML into design properties, dimensions, areas and pooled mapping records.
  It looks up each mapping's columns in the CSV sources and dispatches
  drawing by mapping kind and by split. On the Rust side the model covers:
  - the plot group, with its split tags and the offset and scale tables of
    its panes;
  - the plot area, with its index-ordered mapping list;
  - the bar, line, scatter, area and text mappings;
  - grid segments and the context mapper (linear scale, over `real`);
  - font descriptions and the layout toolbars;
  - the property paths sent to the layout, and the mapping popover's
    selection.
- **The tabular data layer.** This covers:
  - `Column` and `NullableColumn`: values plus ascending null positions;
  - `Table`: its shape and its text, CSV, Markdown and SQL `CREATE`/`INSERT`
    output, plus the `Columns` helper and the `Format`, `BoolField` and
    `NullField` settings;
  - typing of SQLite columns, with tables built from abstract rows;
  - `split_sql` and the listener's classification of the last statements.
- **The table environment.** It holds the tables and an update history.
  From each batch of results it decides between a refresh, new tables and
  an error. It also replays saved function calls and maps global column
  indices to their tables. The notebook of table pages and the plot
  workspace's data sources sit beside it.
- **Small parsers and serialisers.** These are:
  - `SqlType` and `SqlAggType` names;
  - function signatures, both `name(args)->ret` text and syntax-tree items;
  - TOML function tables and `FunctionMode` names;
  - `EXECUTE '…' INTO … USING …` bindings over an abstract token list;
  - the PostgreSQL connection string.
- **Bookkeeping.** This covers:
  - the recent-files list and `break_string`;
  - the status stack;
  - the SQL editor's auto-refresh clock, result-poll counter and the names
    of loaded files.

Each source file has one module, and each module has its own file. The one
exception is `workspace.dfy`, which holds `PlotWorkspaces` and
`DataSources`. `wrappers.dfy` holds `Option`, `Result` and `Outcome`
(`Returned(value)` or `Panic`, which stands for a Rust panic). `strs.dfy`
holds the string helpers (split, trim, find, numbers as text).

Pure code is modelled as functions with lemmas. Code that changes state is
modelled as classes whose methods state their new state as a function of
the old state, and loops become methods proved against those functions.
Some things are inputs to the model, not part of it:
- external parsers: XML, CSV, sqlparser tokens, `syn` items, TOML values
  and number text;
- database rows and engines;
- the clock ticks.

Where a Rust function documents one thing and does another, the model
follows the code. Examples:
- `StatusStack::try_show_alt` says it does nothing for other statuses, but
  it shows the status page.
- `update_queries` marks the query as sent even when the editor had no text.
- The layout reader script has syntax errors (`scripts/parse_plot.py` lines
  112, 150, 218, 227 and 259, and the `mappping` typo at line 154). Each
  of its functions is modelled as it evidently reads.
- Several Rust files disagree with each other. Each function is modelled
  as written in its own file:
  - the `Mapping` trait signatures versus their implementations;
  - `text_rows` calling `display_content` without a precision;
  - the arity of `get_column_names`.

## Model

| member | source | states |
|---|---|---|
| ParsePlot.Truthy | scripts/parse_plot.py:15-16 | `bool` of a property text is true exactly for a present, non-empty text |
| ParsePlot.SelectExact | scripts/parse_plot.py:9-17 | an xpath step `tag[@key='val']` keeps exactly the nodes with that tag and attribute value, and no others |
| ParsePlot.First | scripts/parse_plot.py:10 | `xpath(...)[0].text` succeeds iff there is a match, gives the first one, and raises IndexError otherwise |
| ParsePlot.ReadText | scripts/parse_plot.py:10 | `xpath(...)[0].text` of a property succeeds exactly when some object holds it, gives its first text, and raises IndexError otherwise |
| ParsePlot.ReadNumber | scripts/parse_plot.py:11-14 | `float` or `int` of the first property text succeeds exactly when the property is present with a text that parses, giving that number; a missing property, an empty element or an unreadable text raises |
| ParsePlot.GetSegmentProperties | scripts/parse_plot.py:8-27 | succeeds exactly when label, invert and log_scaling are present and from, to, n_intervals, precision and grid_offset are present with texts that parse; then every field is its first-match text (label), the number that text reads as, or its truthiness (invert, log_scaling); otherwise it raises IndexError, TypeError or ValueError |
| ParsePlot.GetDesignProperties | scripts/parse_plot.py:29-46 | succeeds exactly when the seven design properties are present and grid_width parses as a float; then every field is its first-match text and grid_width that float; otherwise it raises IndexError, TypeError or ValueError |
| ParsePlot.GetDimensions | scripts/parse_plot.py:48-55 | width and height are the raw property texts; a missing one raises |
| ParsePlot.ExtraPropsKeys | scripts/parse_plot.py:67-88 | the extra keys are exactly those of the mapping's kind (line width/dash as ints); an unknown kind raises "Unrecognized type" |
| ParsePlot.MappingRecordKeys | scripts/parse_plot.py:57-89 | a record has exactly the five common keys plus its kind's keys; a type outside the six kinds raises once x, y and color are read |
| ParsePlot.CommonProps | scripts/parse_plot.py:58-66 | the common record holds exactly name, type, x, y and color, name and type from the attributes |
| ParsePlot.GrandchildIsDescendant | scripts/parse_plot.py:93 | `.//object` finds mapping objects nested below a child, not only direct children |
| ParsePlot.PoolMappings | scripts/parse_plot.py:91-97 | the loop gives one record per mapping object below the area, in document order, or the first error |
| ParsePlot.RecordsPointwise | scripts/parse_plot.py:94-96 | the k-th pooled record is the record of the k-th mapping object |
| ParsePlot.FilterDeclarations | scripts/parse_plot.py:103-108 | the document text is the concatenation of the lines without "<?", in order |
| ParsePlot.KeptLinesExact | scripts/parse_plot.py:105-108 | exactly the lines containing "<?" are dropped and every other line is kept |
| ParsePlot.SearchData | scripts/parse_plot.py:133-141 | the loop returns the column of the first frame holding the referenced name, None when no frame does |
| ParsePlot.FirstColumnIsFirstMatch | scripts/parse_plot.py:135-140 | a column is found iff some frame holds the name, and it comes from the first such frame |
| ParsePlot.DefineFigureSplit | scripts/parse_plot.py:186-205 | "Unique" gives one pane; the seven other known splits raise "Unimplemented split"; anything else exits with -1 |
| ParsePlot.Zip3Annotations | scripts/parse_plot.py:172-173 | `zip` of three columns annotates up to the shortest one, point i with x[i], y[i], t[i] |
| ParsePlot.PlotCall | scripts/parse_plot.py:146-161 | the `ax.plot` call of a line (style "-") or scatter (style "o") mapping, with x, y, colour, marker size and (line only) line width each searched in the frames |
| ParsePlot.IndexFrameList | scripts/parse_plot.py:172 | `data[mapping['x']]` on the list of frames always raises: KeyError without an x, TypeError with one |
| ParsePlot.DrawMapping | scripts/parse_plot.py:145-184 | as written: line and scatter give exactly their one `ax.plot` call; bar and surface raise "Unimplemented"; text and area raise on indexing the frame list; any other type raises "Unknown mapping type" |
| ParsePlot.RecordXIsText | scripts/parse_plot.py:57-66 | every record the reader builds holds a text or None under x |
| ParsePlot.TextAreaRaiseTypeError | scripts/parse_plot.py:171-180 | as written, every text or area mapping the reader builds raises TypeError when drawn |
| ParsePlot.DrawMappingFixedTextArea | scripts/parse_plot.py:171-180 | with the text and area columns searched in the frames, a text mapping annotates point i with x[i], y[i], t[i] up to the shortest column, an area mapping fills once between x, y and ymax with the mapping's colour, each succeeding exactly when its columns (and the colour) are found; other kinds draw as written |
| ParsePlot.DrawArea | scripts/parse_plot.py:143-184 | the calls of all mappings in order (DrawMapping, as written), the first failing mapping raising |
| ParsePlot.UndrawableKindRaises | scripts/parse_plot.py:162-182 | as written, an area holding any bar, surface, text or area mapping cannot be drawn |
| ParsePlot.DrawPlot | scripts/parse_plot.py:207-216 | a split other than "Unique" fails; with "Unique" the single pane draws the first area |
| ParsePlot.GetAreaList | scripts/parse_plot.py:258-266 | one entry per plotarea object of the plotgroup, in order, or the first error |
| ContextMapping.CalcExt | src/plots/plotview/context_mapper.rs:81-92 | each linear extent is the absolute width of its data range: never negative, zero iff the bounds coincide, max minus min when ordered |
| ContextMapping.PropInverted | src/plots/plotview/context_mapper.rs:112-123 | the inverted proportion of v is the plain proportion of v reflected inside the bounds |
| ContextMapping.PropInUnit | src/plots/plotview/context_mapper.rs:113-114 | a value inside the bounds has a proportion in [0, 1] when the extent is the range width |
| ContextMapping.PixelRange | src/plots/plotview/context_mapper.rs:107-110 | a proportion in [0, 1] lands between the 10% padding on each side of the pixel size |
| ContextMapping.ContextMapper.Default | src/plots/plotview/context_mapper.rs:35-49 | the derived default has every bound, extent and size zero and every flag false |
| ContextMapping.ContextMapper.constructor | src/plots/plotview/context_mapper.rs:57-67 | the bounds and flags given are kept, the extents are calc_ext of the bounds, and the size starts at zero |
| ContextMapping.ContextMapper.UpdateDataExtensions | src/plots/plotview/context_mapper.rs:69-74 | new bounds; the extents, flags and size stay as they were |
| ContextMapping.ContextMapper.UpdateDimensions | src/plots/plotview/context_mapper.rs:76-79 | new pixel size; everything else unchanged |
| ContextMapping.ContextMapper.SetMode | src/plots/plotview/context_mapper.rs:94-104 | new flags, extents recomputed from the current bounds, bounds and size unchanged, so check_bounds answers as before |
| ContextMapping.ContextMapper.Map | src/plots/plotview/context_mapper.rs:106-128 | x is laid out left to right across the 80% of the width inside the padding, in proportion to its place in the data range; y is the same layout mirrored top to bottom, so larger values are drawn higher |
| ContextMapping.ContextMapper.DataExtensions | src/plots/plotview/context_mapper.rs:153-155 | the four data bounds, in the order xmin, xmax, ymin, ymax |
| ContextMapping.MapCorners | src/plots/plotview/context_mapper.rs:144-151 | without inversion the lower-left data corner maps to (10%, 90%) of the size and the upper-right to (90%, 10%) |
| ContextMapping.MapInvertedX | src/plots/plotview/context_mapper.rs:114 | an inverted x axis maps x where the plain axis maps xmin + xmax - x |
| ContextMapping.MapInvertedY | src/plots/plotview/context_mapper.rs:120 | an inverted y axis maps y where the plain axis maps ymin + ymax - y |
| ContextMapping.InBoundsMapsInside | src/plots/plotview/context_mapper.rs:130-142 | a point that passes check_bounds is drawn inside the padded frame |
| GridSegments.NewGridSegment | src/plots/plotview/grid_segment.rs:17-46 | n + 1 steps, step i being the offset start plus i intervals of (to - from) / n; the other fields are kept |
| GridSegments.EvenSpacing | src/plots/plotview/grid_segment.rs:37-44 | consecutive steps are exactly one interval apart |
| GridSegments.EndPoints | src/plots/plotview/grid_segment.rs:22-44 | with no offset the steps start at `from` and end exactly at `to` |
| GridSegments.Description | src/plots/plotview/grid_segment.rs:48-60 | the description holds the nine keys; n_intervals and grid_density both report the number of steps (n + 1), not the count the segment was built with |
| MappingKinds.FromStr | src/plots/plotview/mappings/mod.rs:31-41 | exactly the six lower-case names are recognised, each giving the kind of that name |
| MappingKinds.FromStrName | src/plots/plotview/mappings/mod.rs:31-41 | every kind is recognised back from its own name |
| MappingKinds.FromStrInjective | src/plots/plotview/mappings/mod.rs:32-39 | distinct accepted names give distinct kinds |
| MappingKinds.DefaultHash | src/plots/plotview/mappings/mod.rs:46-87 | colour black, x, y and source unset, then exactly the kind's own keys with their default values |
| MappingKinds.KeyCount | src/plots/plotview/mappings/mod.rs:47-85 | no kind redefines a common key, so the default tables hold 6, 5, 12, 6, 9 and 6 entries |
| BarMappings.Ramp | src/plots/plotview/mappings/bar.rs:64-76 | bar i sits at start + spacing * i, moved back half a spacing when centred |
| BarMappings.RampSpacing | src/plots/plotview/mappings/bar.rs:64-73 | neighbouring bars are exactly one spacing apart |
| BarMappings.BarMapping.constructor | src/plots/plotview/mappings/bar.rs:31-59 | empty data, then the layout's colour, anchor, column names, origin, width, spacing and orientation |
| BarMappings.BarMapping.AdjustBar | src/plots/plotview/mappings/bar.rs:61-84 | positions along the bar axis are the ramp, the other coordinate the origin, and thicknesses spacing * width / 100, for as many bars as there are lengths; the lengths are kept |
| BarMappings.BarMapping.UpdateData | src/plots/plotview/mappings/bar.rs:125-137 | the first vector becomes the lengths (widths when horizontal, heights otherwise) and the bars are rebuilt from it |
| BarMappings.BarMapping.UpdateLayout | src/plots/plotview/mappings/bar.rs:143-165 | the new properties are stored; when the orientation flips, widths and heights are swapped first, so the bar lengths carry over |
| BarMappings.BarMapping.GetColName | src/plots/plotview/mappings/bar.rs:209-217 | x, y, width and height read slots 0 to 3; any other name gives "" |
| BarMappings.BarMapping.SetColName | src/plots/plotview/mappings/bar.rs:237-245 | a known slot takes the name and every other slot is unchanged; an unknown slot changes nothing |
| BarMappings.BarMapping.SetColNames | src/plots/plotview/mappings/bar.rs:247-257 | exactly four names fill the slots in order; any other count returns "Wrong number of columns." and changes nothing |
| Primitives.Zip | src/plots/plotview/mappings/line.rs:71 | pairs x and y by position, stopping at the shorter vector |
| Primitives.VisibleExact | src/plots/plotview/mappings/scatter.rs:50-51 | a point is drawn exactly when it is in the data and passes check_bounds |
| Primitives.VisibleLength | src/plots/plotview/mappings/scatter.rs:50-51 | never more points than the data, and all of them when all are in bounds |
| Primitives.StrokesExact | src/plots/plotview/mappings/line.rs:79-92 | a segment is stroked exactly when it joins two consecutive points and its end passes check_bounds |
| Primitives.StrokesCount | src/plots/plotview/mappings/line.rs:79-92 | one segment per in-bounds point after the first |
| LineMappings.BuildDash | src/plots/plotview/mappings/line.rs:46-53 | n - 1 dashes, none when n <= 1, each 10 / n long |
| LineMappings.LineMapping.constructor | src/plots/plotview/mappings/line.rs:25-44 | empty data and source, then the layout's colour, width, dash count and column names |
| LineMappings.LineMapping.Draw | src/plots/plotview/mappings/line.rs:59-94 | the strokes of consecutive zipped points whose end is in bounds; the previous point moves on at every point, drawn or not |
| LineMappings.LineMapping.UpdateData | src/plots/plotview/mappings/line.rs:96-99 | x and y are the first two vectors; the layout is unchanged |
| LineMappings.LineMapping.UpdateLayout | src/plots/plotview/mappings/line.rs:105-112 | colour, width, dash count and column names from the layout; data and source unchanged |
| LineMappings.LineMapping.Properties | src/plots/plotview/mappings/line.rs:114-132 | the Line default table with colour, width, dash and column names filled in; source keeps its default |
| LineMappings.LineMapping.GetColName | src/plots/plotview/mappings/line.rs:138-144 | x and y read slots 0 and 1; anything else gives "" |
| LineMappings.LineMapping.SetColName | src/plots/plotview/mappings/line.rs:160-166 | a known slot takes the name, every other slot unchanged |
| LineMappings.LineMapping.SetColNames | src/plots/plotview/mappings/line.rs:168-176 | exactly two names fill the slots; any other count is refused with "Wrong number of columns." and changes nothing |
| LineMappings.LineMapping.SetSource | src/plots/plotview/mappings/line.rs:178-184 | get_source gives back the source set; nothing else changes |
| LineMappings.DrawSelection | src/plots/plotview/mappings/line.rs:71-92 | empty data strokes nothing, and every stroke ends at an in-bounds point |
| ScatterMappings.ScatterMapping.constructor | src/plots/plotview/mappings/scatter.rs:24-46 | empty data and source, then the layout's colour, radius and column names |
| ScatterMappings.ScatterMapping.Draw | src/plots/plotview/mappings/scatter.rs:47-61 | one disc per zipped pair that passes check_bounds, in order |
| ScatterMappings.ScatterMapping.UpdateData | src/plots/plotview/mappings/scatter.rs:64-68 | x and y are the first two vectors; the layout is unchanged |
| ScatterMappings.ScatterMapping.UpdateLayout | src/plots/plotview/mappings/scatter.rs:73-80 | colour, radius and column names from the layout; data and source unchanged |
| ScatterMappings.ScatterMapping.Properties | src/plots/plotview/mappings/scatter.rs:81-97 | the Scatter default table with colour, radius and column names filled in; source keeps its default |
| ScatterMappings.ScatterMapping.GetColName | src/plots/plotview/mappings/scatter.rs:102-109 | x and y read slots 0 and 1; anything else gives "" |
| ScatterMappings.ScatterMapping.SetColName | src/plots/plotview/mappings/scatter.rs:124-131 | a known slot takes the name, every other slot unchanged |
| ScatterMappings.ScatterMapping.SetColNames | src/plots/plotview/mappings/scatter.rs:132-141 | exactly two names fill the slots; any other count is refused and changes nothing |
| ScatterMappings.ScatterMapping.SetSource | src/plots/plotview/mappings/scatter.rs:142-148 | get_source gives back the source set; nothing else changes |
| ScatterMappings.DrawSelection | src/plots/plotview/mappings/scatter.rs:50-51 | a disc is drawn for pair i exactly when that pair passes check_bounds |
| AreaMappings.BoundLinesShape | src/plots/plotview/mappings/area.rs:45-64 | each bound pass draws at most one line per step, and only lines to points whose pair is in bounds |
| AreaMappings.Reverse | src/plots/plotview/mappings/area.rs:108-109 | the reversed vector: position i holds element n - 1 - i |
| AreaMappings.Outline | src/plots/plotview/mappings/area.rs:80-121 | nothing for empty x; a panic when x has values but ymin has none; otherwise a path from (x0, ymin0) along the lower curve, up and back along the upper curve, closed and filled; without ymax values it stops unfilled |
| AreaMappings.AreaMapping.constructor | src/plots/plotview/mappings/area.rs:25-43 | empty data, then the layout's column names and colour with the layout's opacity as alpha |
| AreaMappings.AreaMapping.Draw | src/plots/plotview/mappings/area.rs:80-121 | the outline of x, ymin and ymax |
| AreaMappings.AreaMapping.UpdateData | src/plots/plotview/mappings/area.rs:124-128 | x, ymin and ymax are the first three vectors |
| AreaMappings.AreaMapping.UpdateLayout | src/plots/plotview/mappings/area.rs:130-137 | the colour is parsed, then its alpha replaced by the opacity property; column names from the layout |
| AreaMappings.AreaMapping.Properties | src/plots/plotview/mappings/area.rs:139-157 | the Area default table with colour, opacity (the alpha) and the three column names filled in |
| AreaMappings.AreaMapping.GetColName | src/plots/plotview/mappings/area.rs:163-170 | x, y and ymax read slots 0 to 2; anything else gives "" |
| AreaMappings.AreaMapping.GetOrderedColNames | src/plots/plotview/mappings/area.rs:172-178 | (slot, column) pairs for x and y, but the ymax pair is written (column, slot) |
| AreaMappings.AreaMapping.SetColName | src/plots/plotview/mappings/area.rs:188-195 | a known slot takes the name, every other slot unchanged |
| AreaMappings.AreaMapping.SetColNames | src/plots/plotview/mappings/area.rs:201-210 | exactly three names fill the slots; any other count is refused and changes nothing |
| Fonts.FindSlant | src/plots/plotview/text.rs:39-50 | the slant search reports the leftmost "Italic" or "Oblique", with the slant that word names, and nothing exactly when neither word occurs |
| Fonts.SplitStyle | src/plots/plotview/text.rs:38-63 | the family is a prefix of the text before the size; the slant is Normal exactly when no slant word occurs there |
| Fonts.NewFromString | src/plots/plotview/text.rs:33-77 | a descriptor is read exactly when it ends in two digits, which give the size; the family is a prefix of what precedes them and the slant is Normal exactly when no slant word occurs |
| Fonts.ReadSized | src/plots/plotview/text.rs:34-38 | a prefix followed by a two-digit size is read as that size with the prefix's style split |
| Fonts.BoldOnlyBeforeSlant | src/plots/plotview/text.rs:51-62 | Bold is recognised only in the text before the slant word, or before the size when there is no slant word |
| Fonts.Description | src/plots/plotview/text.rs:79-94 | the description is the family, the slant word, the weight word and the size, with no space before the size |
| Fonts.DescriptionFixed | src/plots/plotview/text.rs:79-94 | the corrected description writes the weight word before the slant word, the order in which new_from_string looks for them |
| Fonts.PlainRoundTrip | src/plots/plotview/text.rs:33-94 | a font with normal weight and slant, a two-digit size and a family without style words is read back unchanged from its description |
| Fonts.BoldSlantedLosesWeight | src/plots/plotview/text.rs:51-62 | as written, a bold slanted font read back from its description comes back with normal weight and a trailing space on the family |
| Fonts.BoldItalicLosesWeight | src/plots/plotview/text.rs:79-94 | the font Sans, bold, italic, size 12 is read back from "Sans Italic Bold12" as a regular italic "Sans " |
| Fonts.FixedRoundTrip | src/plots/plotview/text.rs:33-77 | with the corrected description every weight and slant survives the round trip; the family keeps only the space before the first style word |
| TextMappings.LabelsExact | src/plots/plotview/mappings/text.rs:68-82 | a label is drawn exactly for each zipped x, y and text position that passes check_bounds, carrying that position's text |
| TextMappings.LabelsPrefix | src/plots/plotview/mappings/text.rs:58-68 | the drawn labels depend only on the common prefix of positions and texts, so mismatched lengths are only reported |
| TextMappings.TextMapping.constructor | src/plots/plotview/mappings/text.rs:25-44 | a new text mapping starts with empty data and takes its colour, font and three column names from the layout |
| TextMappings.TextMapping.SetTextData | src/plots/plotview/mappings/text.rs:49-51 | the text becomes the given vector and nothing else changes |
| TextMappings.TextMapping.Draw | src/plots/plotview/mappings/text.rs:56-86 | the labels drawn are exactly the in-bounds labels of the zipped data |
| TextMappings.TextMapping.UpdateData | src/plots/plotview/mappings/text.rs:88-91 | x and y become the first two vectors; the text, font and colour are kept |
| TextMappings.TextMapping.UpdateExtraData | src/plots/plotview/mappings/text.rs:93-99 | the first string vector becomes the text; with no vector nothing changes |
| TextMappings.TextMapping.UpdateLayout | src/plots/plotview/mappings/text.rs:101-108 | colour, font and the x, y and text column names come from the layout; the data is kept |
| TextMappings.TextMapping.Properties | src/plots/plotview/mappings/text.rs:110-128 | the table has exactly the common and text keys, with colour, font description and the three column names filled in and the source left "None" |
| TextMappings.TextMapping.GetColName | src/plots/plotview/mappings/text.rs:134-141 | x, y and text read their own name slots; any other column name gives "" |
| TextMappings.TextMapping.SetColName | src/plots/plotview/mappings/text.rs:151-158 | setting x, y or text is read back by get_col_name and no other column's name changes |
| TextMappings.TextMapping.SetColNames | src/plots/plotview/mappings/text.rs:168-178 | exactly three names are accepted and stored in order; any other count is refused with "Wrong number of columns." and nothing changes |
| PlotAreas.ReloadStep | src/plots/plotview/mod.rs:502-521 | one mapping node: a missing index or type attribute panics (`expect`), an unknown type fails, an index that does not parse or lies past the end panics, otherwise a fresh mapping of the type is inserted at the index |
| PlotAreas.ReloadSpec | src/plots/plotview/mod.rs:496-527 | reload_mappings over the nodes in document order from an empty list, stopping at the first node that panics or fails |
| PlotAreas.ReloadStops | src/plots/plotview/mod.rs:515-518 | once a node has stopped the reload, no later node is looked at |
| PlotAreas.ReloadLength | src/plots/plotview/mod.rs:496-527 | a successful reload holds exactly one mapping per mapping node |
| PlotAreas.ReloadUnknownFails | src/plots/plotview/mod.rs:503-518 | a node without a type, or with a type that is not a mapping kind, keeps the reload from succeeding |
| PlotAreas.ReloadInOrder | src/plots/plotview/mod.rs:502-514 | nodes of known kinds numbered 0, 1, 2 … in document order reload into mappings of the same kinds in the same order |
| PlotAreas.FirstWithIndex | src/plots/plotview/mod.rs:726-727 | the node the index XPath finds first carries exactly that index text, and none is found only when no node carries it |
| PlotAreas.FindCarrier | src/plots/plotview/mod.rs:729-733 | in nodes numbered 0 .. n - 1 the XPath for any position below n finds the node carrying it |
| PlotAreas.ContigRemove | src/plots/plotview/mod.rs:720-734 | unlinking position pos and renumbering pos + 1 .. n - 1 one down turns the indices 0 .. n - 1 into 0 .. n - 2 |
| PlotAreas.RemoveKeepsContiguous | src/plots/plotview/mod.rs:720-734 | remove_mapping keeps the node indices contiguous: nodes numbered 0 .. n - 1 become nodes numbered 0 .. n - 2 |
| PlotAreas.AppendKeepsContiguous | src/plots/plotview/mod.rs:574-624 | adding a mapping at the end, with the next index, keeps the node indices contiguous |
| PlotAreas.InsertInsideDuplicates | src/plots/plotview/mod.rs:592-624 | adding a mapping before the end renumbers no node, so two nodes then carry the same index |
| PlotAreas.FoldMin | src/plots/plotview/mod.rs:666-672 | the fold gives a value no greater than its seed or any data value, and equal to the seed or to one of them |
| PlotAreas.FoldMax | src/plots/plotview/mod.rs:673-679 | the fold gives a value no less than its seed or any data value, and equal to the seed or to one of them |
| PlotAreas.Cleared | src/plots/plotview/mod.rs:830-867 | a cleared mapping keeps its kind, receives empty vectors of its kind's arity and, for text, loses its text |
| PlotAreas.PlotArea.constructor | src/plots/plotview/mod.rs:432-444 | a new plot area has its layout node and no mappings; its bounds are the ones reload_layout_node reads right after (lines 532-551) |
| PlotAreas.PlotArea.ReloadMappings | src/plots/plotview/mod.rs:496-527 | the mappings are cleared and rebuilt in node order as the reload specification says, keeping the partial list on an error; the layout and bounds do not change |
| PlotAreas.PlotArea.AddMapping | src/plots/plotview/mod.rs:574-657 | an unknown kind, an index that does not parse, or an index past the end is refused and nothing changes; otherwise a fresh mapping of that kind is inserted at the index and a node carrying the index is appended |
| PlotAreas.PlotArea.RemoveMapping | src/plots/plotview/mod.rs:720-739 | mapping pos is removed, or the call aborts for a position past the end or a missing node; with contiguous nodes the carrier of pos is unlinked and the rest renumbered, keeping them contiguous |
| PlotAreas.PlotArea.RenumberAfter | src/plots/plotview/mod.rs:729-734 | on contiguous indices the loop finds every node carrying pos + 1 .. n - 1 and leaves each numbered one lower (Shifted), touching neither the mappings nor the bounds |
| PlotAreas.PlotArea.Accomodate | src/plots/plotview/mod.rs:659-692 | the lower bound of the axis moves down to the data minimum only when that is smaller and the upper bound up to the maximum only when that is larger; nothing else changes |
| PlotAreas.PlotArea.UpdateMapping | src/plots/plotview/mod.rs:694-718 | empty data is refused with nothing changed; one vector widens y, two or more widen x and y; an id text that does not parse panics; a mapping given fewer vectors than its update_data reads panics (line.rs:96-99, area.rs:124-128); otherwise the data goes to the mapping at the id, or an error reports a missing mapping with the bounds already widened |
| PlotAreas.PlotArea.ClearAllData | src/plots/plotview/mod.rs:830-867 | every mapping is replaced by its cleared form and nothing else changes |
| PlotAreas.HashOfKeys | src/plots/plotview/mod.rs:1173-1178 | the property table holds exactly the names present among the selected nodes |
| PlotAreas.HashOfLast | src/plots/plotview/mod.rs:1173-1178 | each name maps to the text of its last occurrence |
| PlotAreas.ChildrenAsHash | src/plots/plotview/mod.rs:1163-1184 | the table is returned exactly when some nodes were selected and all carry a name, and then it is the table of their names and texts |
| PlotGroups.SplitOfName | src/plots/plotview/mod.rs:245-256 | an accepted split tag is the name of the split it gives |
| PlotGroups.SplitNameRoundTrip | src/plots/plotview/mod.rs:245-256 | each of the eight splits is read back from its own name |
| PlotGroups.ScanStep | src/plots/plotview/mod.rs:226-259 | one child of the scan: a ratio property stores its number or fails with "Unabe to parse …", a split property stores the split or fails with "Unrecognized split value", any other property fails with "Unknown property", a plotarea is appended, anything else is skipped |
| PlotGroups.ScanLayout | src/plots/plotview/mod.rs:224-259 | the scan of all children in document order, stopping at the first failing child |
| PlotGroups.ScanStops | src/plots/plotview/mod.rs:226-265 | once a child makes the layout scan fail, the scan fails with that same message whatever follows |
| PlotGroups.UnknownPropertyRejected | src/plots/plotview/mod.rs:229-259 | a property other than the two ratios and the split makes the load fail with "Unknown property" |
| PlotGroups.UnknownSplitRejected | src/plots/plotview/mod.rs:244-256 | a split tag outside the eight names makes the load fail with "Unrecognized split value" |
| PlotGroups.ScanKeepsAreas | src/plots/plotview/mod.rs:261-263 | a successful scan keeps every plotarea child, in document order, and nothing else |
| PlotGroups.PlotGroup.constructor | src/plots/plotview/mod.rs:95-110 | a new group has the Unique split, both ratios 1 and no plot areas |
| PlotGroups.PlotGroup.LoadLayout | src/plots/plotview/mod.rs:213-293 | a root not named plotgroup, a failing scan, no plot area or an area count that does not fit the split (Unique when no tag) is refused with its message; with a fitting count the result is LoadStatus of the areas; it succeeds exactly when the scan succeeds, the count fits and LoadStatus is Ok, and then the group holds one area per plotarea child with its bounds and mappings loaded, and the ratios read |
| PlotGroups.PlotGroup.ScanChildren | src/plots/plotview/mod.rs:224-259 | the child loop yields exactly the scan of the children (the first bad property or split tag stops it with its message) and leaves the ratios and split tag read, the others as they were |
| PlotGroups.PlotGroup.ReloadAreas | src/plots/plotview/mod.rs:284-289 | reload_layout_data over every area (with lines 204-211 and 532-551), then reload_mappings over every area: the outcome is LoadStatus of the areas, and on success there is one plot area per plotarea child with its bounds and mappings loaded; ratios and split are untouched |
| PlotGroups.PlotGroup.ReloadMappingsOfAll | src/plots/plotview/mod.rs:286-289 | with every grid read, the mapping loop ends as MappingsStatus says and, on success, holds one loaded plot area per child |
| PlotGroups.LoadAreas | src/plots/plotview/mod.rs:286-289 | the areas built in order until one reload fails, ending as MappingsStatus says; on success one loaded area per child |
| PlotGroups.LoadArea | src/plots/plotview/mod.rs:286-288 | one area built with the bounds read and its mappings reloaded: the status is that of reload_mappings on its nodes, and an Ok status leaves it loaded |
| PlotGroups.LayoutStatus | src/plots/plotview/mod.rs:204-211 | reload_layout_data over the areas: the first grid read that panics panics, the first that fails gives "Could not reload layout data" (line 285) |
| PlotGroups.MappingsStatus | src/plots/plotview/mod.rs:286-289 | the reload_mappings loop: the first reload that panics panics, the first that fails gives "Could not reload mappings from informed layout" |
| PlotGroups.LoadStatus | src/plots/plotview/mod.rs:284-291 | the end of load_layout: the layout data first, then the mappings |
| PlotGroups.LayoutStatusOk | src/plots/plotview/mod.rs:204-211 | the layout data reloads exactly when every area's grid segments are read (with lines 532-551) |
| PlotGroups.MappingsStatusOk | src/plots/plotview/mod.rs:286-289 | the mapping loop succeeds exactly when every area's reload succeeds |
| PlotGroups.LoadStatusOk | src/plots/plotview/mod.rs:284-291 | the end of load_layout succeeds exactly when every grid is read and every area's mappings reload, and otherwise fails only with "Could not reload layout data" or "Could not reload mappings from informed layout" (or panics) |
| PlotGroups.PaneTables | src/plots/plotview/mod.rs:137-192 | panes beyond the split's count, and every pane of Unique, sit at the top-left corner at full scale; in Four and Horizontal the neighbouring fractions add up to the whole |
| PlotGroups.FourCornerGap | src/plots/plotview/mod.rs:138-148 | as written, with h_ratio 1/4 and v_ratio 3/4 on a 100 by 100 drawing, pane 0 of Four ends at 25 across but pane 1 starts at 75, and pane 0 ends at 75 down but pane 2 starts at 25 |
| PlotGroups.VerticalOverlap | src/plots/plotview/mod.rs:144 | as written, pane 0 of Vertical is full width while pane 1 starts at w * h_ratio, so they overlap whenever h_ratio is below 1 (with lines 180-181) |
| PlotGroups.PanesMeetFixed | src/plots/plotview/mod.rs:137-192 | with the corrected tables each pane of Vertical, Horizontal and Four starts where its left or upper neighbour ends, and neighbouring fractions add up to the whole |
| PlotGroups.OriginOffset | src/plots/plotview/mod.rs:137-192 | the origin offset of each pane of a drawing, per layout, as written |
| PlotGroups.ScaleFactor | src/plots/plotview/mod.rs:137-192 | the (width, height) fractions of each pane, per layout, as written |
| TableColumns.Len | src/tables/column.rs:90-105 | a column's length is its vector's length, and a nullable column's length is its stored n |
| TableColumns.SqliteType | src/tables/column.rs:163-170 | 32- and 64-bit integers are INT, floats REAL, byte strings BLOB and every other column TEXT |
| TableColumns.NewEmpty | src/tables/column.rs:30-35 | new_empty gives an empty boolean column whatever element type is asked for |
| TableColumns.Truncate | src/tables/column.rs:172-187 | a plain column keeps its first m entries; a nullable column keeps its length n and null positions and cuts only its inner column |
| TableColumns.Interleave | src/tables/nullable_column.rs:40-49 | interleaving the values with the null positions gives one entry per position |
| TableColumns.GoLength | src/tables/nullable_column.rs:40-49 | from position i the interleaving loop gives the n - i remaining entries |
| TableColumns.InterleaveLoop | src/tables/nullable_column.rs:38-50 | the display loop over n positions gives exactly the interleaving of values and nulls |
| TableColumns.DisplayContent | src/tables/column.rs:138-161 | one text per entry: strings as they are, byte strings as "(Binary)", plain columns never fail, and a nullable column wrapping another shows nothing |
| TableColumns.RefContent | src/tables/column.rs:107-122 | one reference per entry, the plain column's own entries in order, interleaved with NULL for a nullable column |
| TableColumns.TruncateDisplay | src/tables/column.rs:138-187 | truncating a plain column keeps a prefix of its displayed text |
| TableColumns.TryBools | src/tables/column.rs:317-328 | conversion to booleans succeeds exactly on a boolean column, giving back its vector, and fails with "Invalid column type" otherwise |
| TableColumns.TryI64s | src/tables/column.rs:382-393 | conversion to 64-bit integers succeeds exactly on such a column, giving back its vector, and fails with "Invalid column type" otherwise |
| TableColumns.TryStrs | src/tables/column.rs:434-445 | conversion to strings succeeds exactly on a string column, giving back its vector, and fails with "Invalid column type" otherwise |
| NullableColumns.CountSum | src/tables/nullable_column.rs:99-110 | every position of the options is either a value or a null |
| NullableColumns.NullPositionsExact | src/tables/nullable_column.rs:103-109 | the recorded null positions are strictly ascending, in range, and exactly the positions holding None |
| NullableColumns.FromOptions | src/tables/nullable_column.rs:99-111 | building from options separates the present values, in order, from the ascending null positions and keeps the full length |
| NullableColumns.InterleaveFill | src/tables/nullable_column.rs:32-51 | interleaving the separated values and nulls back gives every position its value or the null marker |
| NullableColumns.DisplayOptions | src/tables/nullable_column.rs:32-51 | display_content of a column built from options shows "NULL" at each absent position and the value's text at each present one |
| NullableColumns.FromCol | src/tables/nullable_column.rs:25-30 | from_col wraps the column with no nulls, as long as its entries |
| NullableColumns.ToColumn | src/tables/nullable_column.rs:55-64 | to_column gives the bare inner column when there are no nulls and the nullable column, of length n, otherwise |
| NullableColumns.ToColumnFromCol | src/tables/nullable_column.rs:25-64 | a plain column survives from_col followed by to_column |
| NullableColumns.ToColumnOfOptions | src/tables/nullable_column.rs:55-64 | a column built from options with some None stays nullable; with none it becomes the plain column of the values (with lines 99-111) |
| NullableColumns.AsWrittenPanicsWithNulls | src/tables/nullable_column.rs:122-137 | as written, try_into panics on every column built from options that holds a None, because the null list was swapped out before the loop reads it |
| NullableColumns.AsWrittenPanicsWhenShort | src/tables/nullable_column.rs:122-137 | as written, try_into panics whenever the inner column converts to fewer values than the column has positions |
| NullableColumns.AsWrittenWithoutNulls | src/tables/nullable_column.rs:122-142 | without nulls the as-written conversion and the corrected one agree |
| NullableColumns.TryIntoRoundTrip | src/tables/nullable_column.rs:99-142 | converting back with the column's own null list gives exactly the options it was built from |
| NullableColumns.TryInto | src/tables/nullable_column.rs:122-142 | the conversion gives the corrected conversion's result: a conversion error, a panic when values run out, an error when values are left over, else the options |
| NullableColumns.ConsumeValues | src/tables/nullable_column.rs:130-137 | the loop puts None at each next null position and the next value elsewhere, and leaves exactly the values beyond the non-null positions |
| NullableColumns.TruncateAsWritten | src/tables/nullable_column.rs:87-89 | as written, truncation keeps n and the null positions |
| NullableColumns.TruncatedDisplayPanics | src/tables/nullable_column.rs:40-49 | a string column of length 3 with a null at 0 and values "a", "b", cut to 1, makes display_content run out of values (with lines 87-89) |
| NullableColumns.TruncateFixed | src/tables/nullable_column.rs:87-89 | the corrected truncation sets n to min(n, m) and keeps only the null positions below it |
| NullableColumns.TruncateFixedOfOptions | src/tables/nullable_column.rs:87-111 | truncating a column built from options the corrected way is building from the first m options |
| NullableColumns.TruncateFixedDisplay | src/tables/nullable_column.rs:32-51 | after the corrected truncation display_content shows the first m entries of the original (with lines 87-89) |
| Tables.NewSpec | src/tables/table.rs:26-41 | a table is built exactly when names and columns pair up, there is a first column and every column is as long as it; the two refusals carry their messages |
| Tables.New | src/tables/table.rs:26-41 | checking the columns one by one gives the same outcome as the specification |
| Tables.TypeColumnSpec | src/tables/table.rs:51-77 | a text column becomes 64-bit integers when every text parses as one, else floats when every text parses as one, else stays strings, with one entry per text |
| Tables.TypeColumn | src/tables/table.rs:51-77 | the typing loop, which stops trying a parse once it has failed, gives the specified column |
| Tables.NewFromTextSpec | src/tables/table.rs:43-81 | a reading error gives "Could not parse CSV content"; a built table keeps the CSV's names in order, one typed column per name |
| Tables.NewFromText | src/tables/table.rs:43-81 | the loop over the CSV columns gives the specified table |
| Tables.RowAt | src/tables/table.rs:113-117 | record i is read from every column's text, and panics exactly when some column is too short for it |
| Tables.RowsUpTo | src/tables/table.rs:113-118 | the first m records are the records at positions 0 .. m - 1 |
| Tables.GatherRow | src/tables/table.rs:114-117 | gathering a record column by column gives that record |
| Tables.TextRows | src/tables/table.rs:104-122 | the nested loops give the specified text rows |
| Tables.RowsStop | src/tables/table.rs:112-118 | once one record panics, every longer run of records panics too |
| Tables.TextRowsShape | src/tables/table.rs:104-122 | for a valid table of plain columns the text rows are the header then one row per record, each as wide as the table, matching its shape |
| Tables.TextRowsOneRecord | src/tables/table.rs:104-122 | a one-record table of text columns gives exactly the header and that record |
| Tables.CsvLine | src/tables/table.rs:213-222 | the fields of one row are written as to_csv writes them |
| Tables.ToCsv | src/tables/table.rs:211-226 | the CSV text is one line per text row, each written as its fields |
| Tables.CsvLeadingComma | src/tables/table.rs:200-226 | as written, a two-column table showing only its second column gives a line that starts with a comma and does not split back into its one shown field |
| Tables.CsvLineFixedSplits | src/tables/table.rs:211-226 | the corrected line, which puts commas only between shown fields, splits back into exactly the shown fields when none holds a comma |
| Tables.MdLine | src/tables/table.rs:232-237 | the cells of one Markdown row are written as to_markdown writes them |
| Tables.MdSepLine | src/tables/table.rs:238-249 | the separator line has one aligned cell per shown column |
| Tables.MdRowText | src/tables/table.rs:230-251 | row k of the Markdown text is its cells, followed by the separator line after the header |
| Tables.ToMarkdown | src/tables/table.rs:228-253 | the Markdown text is the rows written one after another |
| Tables.MdRowMatchesSeparator | src/tables/table.rs:228-253 | every row has as many cells as the separator line, when the rows are as wide as the header and no field holds a bar |
| Tables.QuoteName | src/tables/table.rs:148-151 | a column name with a space is double-quoted and any other is kept |
| Tables.SqlTableCreation | src/tables/table.rs:146-161 | the creation statement is "CREATE TABLE name(" followed by the column definitions |
| Tables.CreationShape | src/tables/table.rs:146-161 | for a valid table the definitions are "name TYPE" joined by commas and closed by ")\n" |
| Tables.SqlTypes | src/tables/table.rs:142-144 | one SQLite type per column, in column order |
| Tables.NothingQuotedAsWritten | src/tables/table.rs:142-144 | the types are upper case, so as written comparing them with "text" quotes no field (with lines 177-183) |
| Tables.InsertionAsWrittenUnquoted | src/tables/table.rs:164-196 | as written, a one-record table of two text columns gets its fields unquoted |
| Tables.InsertionAsWrittenSingleColumn | src/tables/table.rs:168-170 | as written, a one-column table gets no insert statement |
| Tables.InsertionFixedQuoted | src/tables/table.rs:164-196 | with the corrected comparison the text fields of a two-column record are single-quoted |
| Tables.InsertionFixedSingleColumn | src/tables/table.rs:164-196 | with the corrected guard a one-column table gets its insert statement |
| Tables.InsertionFixedShape | src/tables/table.rs:164-196 | the corrected statement is empty exactly for a table with no records, and every TEXT field is single-quoted |
| Tables.SqlTableInsertion | src/tables/table.rs:164-196 | the loops over rows and fields give the corrected insert statement |
| Tables.InsertTuples | src/tables/table.rs:173-194 | the row tuples, TEXT fields quoted, as the specification writes them |
| Tables.TupleLine | src/tables/table.rs:175-192 | the fields of one row tuple, TEXT fields quoted, closed by "),", or ");\n" on the last row |
| Tables.TakeAndPush | src/tables/table.rs:340-345 | pushing a column keeps the earlier ones and appends the new one, keeping names, indices and columns aligned |
| Tables.TakeAndExtend | src/tables/table.rs:347-352 | extending keeps the earlier columns and appends the others after them, in order |
| Tables.Get | src/tables/table.rs:362-364 | a column is returned exactly for an index below the column count, and it is the column there |
| Tables.TryAccess | src/tables/table.rs:416-430 | the vector is returned exactly when the index names a column that converts to the type asked for |
| Tables.TryNumeric | src/tables/table.rs:369-414 | numbers are returned exactly when the column at the index is of a numeric kind whose entries all convert, one number per entry |
| Tables.DecimalsStop | src/tables/table.rs:403-411 | once a decimal fails to convert, the whole column fails |
| Tables.PickColumns | src/tables/table.rs:274-283 | get_columns keeps, aligned, the columns whose indices exist in the table, in the order asked |
| Tables.PickColumnsIxs | src/tables/table.rs:274-283 | an index is kept exactly when it was asked for and names a column of the table; others are skipped |
| Tables.GetColumns | src/tables/table.rs:274-283 | the loop over the indices gives the specified columns |
| Tables.PickAllInRange | src/tables/table.rs:274-283 | with all indices in range, every index is kept, in order |
| Tables.FormatFromStr | src/tables/table.rs:441-452 | exactly "CSV", "HTML" and "Markdown" are read, each as its format |
| Tables.BoolFieldFromStr | src/tables/table.rs:471-486 | exactly the five texts are read as boolean styles |
| Tables.BoolFieldIntegerUnreachable | src/tables/table.rs:478-485 | as written, no text reads as the Integer style and "'1' or '0'" reads as the same style as "'TRUE' or 'FALSE'" |
| Tables.BoolFieldFromStrFixed | src/tables/table.rs:471-486 | with the corrected table a style is read only from its own text |
| Tables.BoolFieldRoundTrip | src/tables/table.rs:471-486 | with the corrected table every boolean style is read back from its text |
| Tables.NullFieldFromStr | src/tables/table.rs:494-506 | exactly "null", "NULL" and "Omit'" are read |
| Tables.NullFieldOmitRefused | src/tables/table.rs:501-503 | as written, "Omit" is refused and "Omit'" reads as Omit |
| Tables.NullFieldFromStrFixed | src/tables/table.rs:494-506 | with the corrected table a null style is read only from its own text |
| Tables.NullFieldRoundTrip | src/tables/table.rs:494-506 | with the corrected table every null style is read back from its text |
| Tables.TextRowsSpec | src/tables/table.rs:104-122 | text_rows: a table without columns gives no rows; otherwise the header, then one row per entry of the first column |
| Tables.InsertionAsWritten | src/tables/table.rs:164-196 | sql_table_insertion as written: a table of at most one column gives no text; otherwise the records after the header as tuples, with a field quoted only when its type is "text" |
| SqliteTables.KindName | src/tables/sqlite.rs:17-28 | the four column kinds display as "Integer", "Real", "String" and "Bytes", each naming its own kind |
| SqliteTables.NewData | src/tables/sqlite.rs:32-40 | exactly the ten accepted declared type names give an empty column, integer, real, text or blob by name; any other is refused with "Invalid column type" |
| SqliteTables.Appended | src/tables/sqlite.rs:92-141 | NULL or a value of the column's own kind is appended after the existing entries; any other value is refused with "Invalid type" |
| SqliteTables.ReadAppended | src/tables/sqlite.rs:63-90 | a value the row reader cannot take as the column's kind fails with "Unable to parse value" |
| SqliteTables.ReadAppendedAgrees | src/tables/sqlite.rs:63-141 | where append_from_row succeeds it appends what try_append would, and it fails on everything try_append refuses and also on NULL in a non-integer column |
| SqliteTables.SqliteColumn.TryAppend | src/tables/sqlite.rs:92-141 | a fitting value is appended and the call succeeds; otherwise "Invalid type" and the column is unchanged |
| SqliteTables.SqliteColumn.AppendFromRow | src/tables/sqlite.rs:63-90 | the column becomes what the row reading gives, or stays unchanged with "Unable to parse value" |
| SqliteTables.FirstValue | src/tables/sqlite.rs:42-61 | a first value fixes the column kind, with NULL giving an integer column holding that one entry; a missing position gives "Could not parse value" |
| SqliteTables.ToNullable | src/tables/sqlite.rs:143-158 | the nullable column is as long as the data read |
| SqliteTables.ToNullableKeepsNulls | src/tables/sqlite.rs:143-158 | the NULL entries become exactly the null positions, and the plain column it becomes is as long as the data |
| SqliteTables.EmptyColumns | src/tables/sqlite.rs:171-177 | one empty column per declared type, a missing type read as "blob"; an unknown type name aborts |
| SqliteTables.FirstColumns | src/tables/sqlite.rs:195-199 | the first row types one column per name, each holding its first value |
| SqliteTables.AppendRow | src/tables/sqlite.rs:200-207 | a later row is appended column by column, and a value that cannot be appended is skipped without error |
| SqliteTables.BuildNoNames | src/tables/sqlite.rs:180-182 | a result without column names gives "No columns available" |
| SqliteTables.BuildNoRows | src/tables/sqlite.rs:213-214 | with no rows the table has the declared columns, all empty |
| SqliteTables.BuildDropsLaterNull | src/tables/sqlite.rs:200-207 | as written, a NULL in the second row of a text column is skipped, so a two-row result becomes a one-row table |
| SqliteTables.AppendRowsFixedLen | src/tables/sqlite.rs:200-207 | with try_append's rule every later row adds one entry to every column |
| SqliteTables.BuildFixedKeepsRows | src/tables/sqlite.rs:162-226 | with the corrected appending a built table holds one record per result row |
| SqliteTables.BuildFixedKeepsLaterNull | src/tables/sqlite.rs:162-226 | with the corrected appending the NULL in the second row is kept as a null entry |
| SqliteTables.BuildTable | src/tables/sqlite.rs:162-226 | reading the rows one by one gives the as-written build |
| SqliteTables.BuildSpec | src/tables/sqlite.rs:162-226 | build_table_from_sqlite as written: no columns is an error, the first row fixes the column kinds and later rows go through the as-written append |
| SqliteTables.BuildFixed | src/tables/sqlite.rs:162-226 | build_table_from_sqlite as evidently intended: later values are appended by try_append, and a value that does not fit is an error |
| SqlListeners.KeepAll | src/tables/sql.rs:206-208 | the kept pieces are exactly the pieces that pass the filter, in order |
| SqlListeners.SplitSql | src/tables/sql.rs:205-209 | every statement split_sql gives is non-blank by its filter and holds no ';' |
| SqlListeners.SplitSqlPieces | src/tables/sql.rs:205-209 | the statements are exactly the ';'-separated pieces that pass the filter, and the pieces joined back with ';' give the text |
| SqlListeners.SplitSqlSingle | src/tables/sql.rs:205-209 | a text without ';' that passes the filter is one statement |
| SqlListeners.Kinds | src/tables/sql.rs:770-777 | one command kind per statement, "select" for a query and "other" for anything else |
| SqlListeners.TryRunSpec | src/tables/sql.rs:549-621 | a parse error, an empty statement list, an inactive engine and an engine without query support are refused with their messages; otherwise there is one result per statement, each the database's answer to it |
| SqlListeners.TryRun | src/tables/sql.rs:558-619 | running the statements one by one gives the specified results |
| SqlListeners.AnswerShape | src/tables/sql.rs:729-745 | the listener thread answers every command: one result per statement when it runs, a single Invalid result otherwise |
| SqlListeners.SqlListener.constructor | src/tables/sql.rs:723-752 | a new listener has no recorded command kinds and nothing sent |
| SqlListeners.SqlListener.SendCommand | src/tables/sql.rs:765-788 | a command that does not parse is refused with the parser's message, is not sent and leaves no kinds; otherwise the kinds of its statements are recorded and the text is sent |
| TableEnvironments.LastTableColsIff | src/tables/environment.rs:253-266 | the last table columns are some names exactly when a NewTables entry with those names is followed by neither a NewTables nor a Clear entry |
| TableEnvironments.ChooseUpdate | src/tables/environment.rs:300-315 | the update is Refresh exactly when the last table set has as many tables and the flattened names agree over their common prefix, and otherwise a new table set with the new names |
| TableEnvironments.FirstBad | src/tables/environment.rs:282-297 | the first result that is not a table is found, and none is found only when every result is a table |
| TableEnvironments.ApplyResults | src/tables/environment.rs:273-318 | no results record a Clear; the first failed result records a Clear and gives its message; the first statement result records a Clear; all tables record the chosen update |
| TableEnvironments.NamesOf | src/tables/environment.rs:283-286 | one list of names per result, the table's own names for each table |
| TableEnvironments.ApplyResultsHistory | src/tables/environment.rs:273-318 | afterwards the environment holds tables exactly when the update is not a Clear, and the last table columns are the new names, or after a Refresh the previous ones |
| TableEnvironments.RefreshDespiteDroppedColumn | src/tables/environment.rs:303-306 | a one-table result that drops its last column still counts as a Refresh, because the zip stops at the shorter name list |
| TableEnvironments.WithQuery | src/tables/environment.rs:231-241 | only a PostgreSQL or SQLite source takes the query; any other source is unchanged |
| TableEnvironments.PrepareThenSend | src/tables/environment.rs:208-247 | after prepare_query the query sent next is the prepared one for SQL sources, other sources have none, and preparing twice is preparing once |
| TableEnvironments.LocalIxsIff | src/tables/environment.rs:444-456 | a table's local index is kept exactly when it is within the table and its global index was asked for |
| TableEnvironments.EnvColumns | src/tables/environment.rs:444-456 | the gathered names, indices and columns stay aligned |
| TableEnvironments.EnvColumnsSound | src/tables/environment.rs:444-456 | every column get_columns returns is the column at its local index of a table whose global index was asked for |
| TableEnvironments.EnvColumnsComplete | src/tables/environment.rs:444-456 | every asked-for global index inside a table's range brings that table's column at the local index |
| TableEnvironments.EnvColumnsPrefix | src/tables/environment.rs:444-456 | columns gathered from the first tables keep their places as later tables are visited |
| TableEnvironments.SavedCalls | src/tables/environment.rs:182-193 | the saved calls are taken from the history after its last NewTables entry |
| TableEnvironments.RunCall | src/tables/environment.rs:132-175 | a function name not in the registry and a name that cannot be retrieved are refused with their messages; an answer comes only from a registered, loaded function |
| TableEnvironments.ReplayAppends | src/tables/environment.rs:198-200 | a successful replay appends one table per call and, when recording, one Function entry per call |
| TableEnvironments.ReplayStops | src/tables/environment.rs:198-200 | after the first failing call a replay does nothing more |
| TableEnvironments.SavedFuncs | src/tables/environment.rs:181-205 | re-running the saved calls panics exactly when there are fewer tables than saved calls to remove |
| TableEnvironments.SavedFuncsTwiceAsWritten | src/tables/environment.rs:181-205 | as written, a successful re-run records its calls again, so the next re-run finds twice as many saved calls and removes twice as many tables as it put back |
| TableEnvironments.SavedFuncsRepeatable | src/tables/environment.rs:181-205 | re-running without recording the calls again keeps the saved calls and the table count, so the next re-run removes exactly the tables this one appended |
| TableEnvironments.TableEnvironment.constructor | src/tables/environment.rs:49-57 | a new environment has its source, no tables, an inactive engine and a history holding only Clear |
| TableEnvironments.TableEnvironment.PrepareQuery | src/tables/environment.rs:231-241 | the source takes the query as WithQuery says and nothing else changes |
| TableEnvironments.TableEnvironment.LastTableColumns | src/tables/environment.rs:253-266 | searching the history from its end gives the last table columns |
| TableEnvironments.TableEnvironment.MaybeUpdateFromQueryResults | src/tables/environment.rs:273-318 | with no answer waiting nothing changes; with an answer the tables, the history and the result are those ApplyResults gives |
| TableEnvironments.TableEnvironment.UpdateSource | src/tables/environment.rs:337-383 | with clear the tables go and a Clear is recorded; a file source is read into the only table; a SQL source installs the engine opened for it and, when its query is not empty, sends it; the query is sent exactly when the engine opened and the source installed before also holds a query, because prepare_query edits that earlier source |
| TableEnvironments.TableEnvironment.PrepareAndSendQuery | src/tables/environment.rs:243-247 | a non-empty query replaces the query of a SQL source and is the one handed to the listener; a source without a query sends nothing (send_current_query fails, lines 208-224) |
| TableEnvironments.TableEnvironment.GetColumns | src/tables/environment.rs:444-456 | the loop over the tables gathers the specified columns |
| TableEnvironments.TableEnvironment.ExecuteFunc | src/tables/environment.rs:132-175 | on success the function's table is appended and the call recorded with its names; on error nothing changes |
| TableEnvironments.TableEnvironment.ExecuteSavedFuncs | src/tables/environment.rs:181-205 | removing one table per saved call and replaying the calls gives the state and result of the re-run specification |
| TableEnvironments.TableEnvironment.RemoveLast | src/tables/environment.rs:194-196 | n tables are removed from the end, or the call panics when there are fewer than n |
| TableEnvironments.TableEnvironment.ReplayCalls | src/tables/environment.rs:198-200 | the replay loop gives the state and first failure of the replay specification |
| TableEnvironments.Replay | src/tables/environment.rs:201-203 | calls replayed one after another reach a state and report the first error, after which nothing more runs |
| TableEnvironments.Flat | src/tables/environment.rs:302-303 | the column names of a table set, table after table, as the flattened iterators visit them |
| TableEnvironments.CommonPrefixAgrees | src/tables/environment.rs:302-304 | the pairs the zip of two flattened name lists visits are equal |
| TableNotebooks.LocalHits | src/table_notebook.rs:210-212 | the indices that fall in a page's range, made local to it, are all below the page's width |
| TableNotebooks.SetSelectedSpec | src/table_notebook.rs:207-219 | every page keeps its width; a page with some index in its range gets exactly those indices made local, and the others keep their selection |
| TableNotebooks.LocalHitsShifted | src/table_notebook.rs:139-153 | a page's selection moved to its global range and read back is the selection (with lines 207-219) |
| TableNotebooks.FullSelectedBelow | src/table_notebook.rs:139-153 | the global indices of the pages lie below their total width |
| TableNotebooks.HitsOfFull | src/table_notebook.rs:139-153 | page i's selection is read back from the global indices of the pages up to any later page (with lines 207-219) |
| TableNotebooks.FullSelectedRoundTrip | src/table_notebook.rs:139-153 | selecting the global indices full_selected_cols reports gives every page back its own selection (with lines 207-219) |
| TableNotebooks.PairsMatchFull | src/table_notebook.rs:139-168 | the (table, column) pairs and the global indices list the same selections in the same order, each global index being the column plus the width of the pages before |
| TableNotebooks.TableNotebook.constructor | src/table_notebook.rs:20-45 | a new notebook has no pages and shows page 0 |
| TableNotebooks.TableNotebook.Clear | src/table_notebook.rs:47-56 | every page goes and the page index is kept |
| TableNotebooks.TableNotebook.FullSelectedCols | src/table_notebook.rs:139-153 | the loop gives the pages' selections shifted by the widths before them, in page order |
| TableNotebooks.TableNotebook.SelectedTableAndCols | src/table_notebook.rs:156-168 | the loops give one (table, column) pair per selected column, in page order |
| TableNotebooks.TableNotebook.SelectedCols | src/table_notebook.rs:172-184 | the current page's selection, or none for a page index past the last table |
| TableNotebooks.TableNotebook.SetSelectedCols | src/table_notebook.rs:207-219 | the pages' selections become those SetSelectedSpec gives and the page index is kept |
| TableNotebooks.Hits | src/table_notebook.rs:210-212 | the filter and map for one page give its local hits |
| PlotWorkspaces.CastI32 | src/plots/plot_workspace.rs:111-124 | the cast of a non-negative value below the i32 maximum rounds toward zero, and every cast lies within the i32 bounds |
| PlotWorkspaces.HalfBelow | src/plots/plot_workspace.rs:111-120 | half of a positive pixel count, cast back, stays below the count |
| PlotWorkspaces.ActiveArea | src/plots/plot_workspace.rs:182-218 | the pane is chosen exactly for the layouts the match covers, and lies below the plot count; one plot is pane 0 and four plots number the quarters row by row |
| PlotWorkspaces.TwoPanesIndependent | src/plots/plot_workspace.rs:187-189 | with two plots the Horizontal split looks only at the column of the click and the Vertical split only at its row |
| PlotWorkspaces.ThreePanesLargePane | src/plots/plot_workspace.rs:190-209 | each three-pane split sends the side holding its single large pane to that pane, whatever the other coordinate |
| PlotWorkspaces.MarksOf | src/plots/plot_workspace.rs:116-124 | the dividers are the width times the horizontal ratio and the height times the vertical ratio, cast to i32 |
| PlotWorkspaces.ActiveCoords | src/plots/plot_workspace.rs:105-180 | the popover point comes with the allocation it was computed from |
| PlotWorkspaces.ActiveCoordsDefined | src/plots/plot_workspace.rs:126-177 | get_active_coords panics exactly on the layouts updated_active_area rejects and on a pane the layout lacks, except that one plot ignores the pane index |
| PlotWorkspaces.CoordsSelectTheirArea | src/plots/plot_workspace.rs:105-218 | a click at the point where a pane's popover opens selects that pane again |
| PlotWorkspaces.MarksSides | src/plots/plot_workspace.rs:116-124 | the middle of the part before a divider is before it and the middle of the part after it is not (with lines 184-185) |
| DataSources.UpdateSource | src/plots/plot_workspace.rs:647-677 | a source the environment moved past is marked invalid and refused; otherwise it takes the new indices, then the column names, table position and history index, and fails when names or local indices cannot be found |
| DataSources.UpdateSourceIdempotent | src/plots/plot_workspace.rs:647-677 | binding a source again to the same columns, with the environment unchanged since, changes nothing |
| DataSources.UpdateSourceStale | src/plots/plot_workspace.rs:647-652 | a source the environment has moved past stays invalid, and keeps its columns, however often it is bound again |
| DataSources.Arity | src/plots/plot_workspace.rs:700-746 | each mapping type takes at most three numeric columns |
| DataSources.UpdateData | src/plots/plot_workspace.rs:679-748 | no columns is nothing to do; a first column that is not numeric is refused before anything is sent; otherwise the names and source are sent, then the data for the type, and the call succeeds exactly when the type's columns all convert |
| DataSources.TwoColumns | src/plots/plot_workspace.rs:716-722 | the line and scatter arm succeeds exactly when the second column is numeric, and then sends both positions |
| DataSources.ThreeColumns | src/plots/plot_workspace.rs:729-744 | the area and surface arms succeed exactly when the second and third columns are numeric, and then send all three |
| TableNotebooks.FullSelected | src/table_notebook.rs:139-153 | full_selected_cols: each page's selection shifted past the columns of the pages before it, page after page |
| TableNotebooks.Pairs | src/table_notebook.rs:156-168 | selected_table_and_cols: (page, local column) for every selection, page after page |
| DataSources.ColumnsTaken | src/plots/plot_workspace.rs:700-746 | the columns a mapping type takes from the selection: its numeric columns, plus the text column of a text mapping |
| DataSources.NumericOk | src/plots/plot_workspace.rs:693-694 | try_numeric succeeds on the column |
| DataSources.Feeds | src/plots/plot_workspace.rs:700-746 | every column the mapping type takes reads as numbers, and a text mapping's third column holds strings |
| DataSources.FeedError | src/plots/plot_workspace.rs:700-746 | the error update_data returns when a later column does not feed the mapping type, per type |
| LayoutToolbars.NOpts | src/plots/layout_toolbar.rs:91-99 | every toolbar holds between one and four toggles |
| LayoutToolbars.StackName | src/plots/layout_toolbar.rs:232-242 | a stack position is named exactly when it is below 8 |
| LayoutToolbars.SplitPos | src/plots/layout_toolbar.rs:269-280 | every split has a stack position below 8 |
| LayoutToolbars.StackMatchesBuild | src/plots/layout_toolbar.rs:91-99 | each stack position shows the toolbar built with that position's prefix, and a split's position holds one toggle per pane of a layout the workspace can lay out (with lines 232-242, 269-280, 306-307) |
| LayoutToolbars.SplitPosInjective | src/plots/layout_toolbar.rs:269-280 | distinct splits sit at distinct stack positions |
| LayoutToolbars.Pick | src/plots/layout_toolbar.rs:251-260 | the shown toolbar keeps its width with every toggle sensitive and only the one at the pane active |
| LayoutToolbars.SetActiveRecords | src/plots/layout_toolbar.rs:230-266 | set_active panics exactly for a stack position of 8 or more; otherwise it records the position and pane and shows that toolbar with only the pane's toggle active, leaving every toggle insensitive in the unique layout |
| LayoutToolbars.SetActiveDefaultShows | src/plots/layout_toolbar.rs:268-286 | a given split never panics and shows its own toolbar with the first pane active; without a split the current position is kept |
| LayoutToolbars.Built | src/plots/layout_toolbar.rs:80-100 | the toolbars as build creates them are shaped as the prefixes say (with lines 292-318) |
| LayoutToolbars.BuildShowsUnique | src/plots/layout_toolbar.rs:292-323 | after build the unique layout is shown with its single pane active, every toggle insensitive and the sensitive flag still set |
| LayoutToolbars.GroupToolbar.Build | src/plots/layout_toolbar.rs:292-323 | the toolbar built is the state set_active(0, 0) gives on the freshly built toolbars |
| LayoutToolbars.GroupToolbar.SetInactive | src/plots/layout_toolbar.rs:214-228 | outside the unique layout every toggle goes off and no pane is active; the unique layout is left as it is |
| LayoutToolbars.GroupToolbar.SetSensitive | src/plots/layout_toolbar.rs:184-200 | outside the unique layout every toggle takes the sensitivity and the flag is stored; in the unique layout every toggle becomes insensitive |
| LayoutToolbars.GroupToolbar.SetActive | src/plots/layout_toolbar.rs:230-266 | the call panics, or the toolbar reaches, exactly as SetActiveSpec says |
| LayoutToolbars.GroupToolbar.SetActiveDefault | src/plots/layout_toolbar.rs:268-286 | the call panics, or the toolbar reaches, exactly as SetActiveDefaultSpec says |
| LayoutToolbars.GroupToolbar.SwitchActivePlot | src/plots/layout_toolbar.rs:288-290 | the same stack position with another pane made active, as set_active gives it |
| LayoutToolbars.MapToggles | src/plots/layout_toolbar.rs:185-199 | the nested loops apply the change to every toggle of every toolbar (with lines 216-220) |
| LayoutToolbars.ConfigToggles | src/plots/layout_toolbar.rs:1259-1281 | every mapping toggle keeps its place in the table |
| LayoutToolbars.ConfigTogglesFollowArity | src/plots/layout_toolbar.rs:1264-1279 | a mapping toggle is sensitive exactly when the number of selected columns is the number its mapping type takes, and a type the workspace does not know is never sensitive |
| LayoutToolbars.ZipEqualIff | src/plots/layout_toolbar.rs:766-768 | with equal lengths the zipped comparison is equality of the index lists |
| LayoutToolbars.MatchesIff | src/plots/layout_toolbar.rs:762-771 | a source matches when it is bound to the table, its table indices are the selection and its type is the one asked for, if any |
| LayoutToolbars.CheckMappedPanics | src/plots/layout_toolbar.rs:761-781 | check_mapped panics exactly when some source has no table position or a matching source's name is not a number |
| LayoutToolbars.CheckMappedExactly | src/plots/layout_toolbar.rs:754-790 | when check_mapped returns, it lists exactly the matching sources, in order, each with its type, plot, position and number |
| LayoutToolbars.CheckMappedStops | src/plots/layout_toolbar.rs:761-786 | once a prefix of the sources panics, the whole check panics |
| LayoutToolbars.CheckMapped | src/plots/layout_toolbar.rs:754-790 | the loop over the sources gives the specified outcome |
| LayoutToolbars.Position | src/plots/layout_toolbar.rs:695-699 | a position found lies within the sources |
| LayoutToolbars.PositionFirst | src/plots/layout_toolbar.rs:695-699 | the first source feeding the selected mapping is found after sources whose names are all numbers; a non-number name before it, or no feeding source, panics |
| LayoutToolbars.RemoveSourceFirst | src/plots/layout_toolbar.rs:695-700 | removing takes out exactly the first source feeding the selected mapping and keeps the others in order |
| LayoutToolbars.SetActiveSpec | src/plots/layout_toolbar.rs:230-266 | set_active: every toggle is released, then the toolbar at the stack position is shown with only the toggle at the pane position active; a stack position with no toolbar panics |
| LayoutToolbars.CheckMappedSpec | src/plots/layout_toolbar.rs:754-790 | check_mapped over the sources in order: a source not bound to any table, or a matching one whose name is not a number, panics |
| LayoutProperties.Identifier | src/plots/layout_aux.rs:16-20 | an object is addressed by `@index` for a mapping and by `@name` for a grid segment or the design; every other parent class has no identifier |
| LayoutProperties.PropertyPathShape | src/plots/layout_aux.rs:15-29 | a path exists exactly for the three known parent classes; it starts with the active area's `/plotgroup/plotarea[@position=N]`, then the object selector by index or by name, then `/property[@name='n']` |
| LayoutProperties.PropertyPathArea | src/plots/layout_aux.rs:15 | equal property paths come from the same active area |
| LayoutProperties.ChangeProperty | src/plots/layout_aux.rs:7-35 | an update is sent exactly when the parent class has an identifier, and it carries the new value at the property's path |
| LayoutProperties.EntryUpdate | src/plots/layout_aux.rs:37-61 | the entry editor sends the property change only for a present, non-empty text |
| LayoutProperties.SwitchUpdate | src/plots/layout_aux.rs:64-86 | the switch editor sends "true" or "false" as the value |
| PlotPopovers.NavSensitive | src/plots/plot_popover.rs:195-231 | the table button is on once the plot has a mapping; with two or more, backward is on away from the first position and forward is on at the first position or away from the last; a plot index outside the lists panics |
| PlotPopovers.NavigateSpec | src/plots/plot_popover.rs:137-170 | navigate: a position outside the list changes nothing; otherwise one step back or forward, with usize underflow and an index past the list panicking, and the child at the new position shown when the stack has it |
| PlotPopovers.NavigateSteps | src/plots/plot_popover.rs:137-170 | navigate moves one step and only while the position is inside the list; a backward step at the first position and a forward step at the last one panic |
| PlotPopovers.SensitiveButtonsNavigate | src/plots/plot_popover.rs:137-170 | every button update_nav_sensitive makes sensitive can be clicked without a panic (with lines 195-231) |
| PlotPopovers.SelectedMapping | src/plots/plot_popover.rs:366-372 | the selected mapping is the stack index at the current position less one, defined exactly when that position exists |
| PlotPopovers.StackChild | src/plots/plot_popover.rs:233-252 | the child update_stack shows always exists in the stack |
| PlotPopovers.AddMappingSpec | src/plots/plot_popover.rs:254-272 | add_mapping as written: pushes the new stack index, sets the position to that index less one (underflow panics), selects the plot, then FinishUpdate |
| PlotPopovers.FinishUpdate | src/plots/plot_popover.rs:270-271 | the update_stack and update_nav_sensitive that end add_mapping and remove_mapping_at_ix (with lines 302-303): panics where either panics, else the child shown and the button states |
| PlotPopovers.AddMappingRecords | src/plots/plot_popover.rs:254-272 | add_mapping appends the new stack index to the plot's list, selects that plot and sets the position to the stack index less one |
| PlotPopovers.RemoveEntry | src/plots/plot_popover.rs:276-300 | the first half of remove_mapping_at_ix: panics when the stack has no child ix + 1 or no plot list holds ix + 1, otherwise takes that entry out, drops one child and resets plot and position to 0 |
| PlotPopovers.RemoveMappingSpec | src/plots/plot_popover.rs:276-303 | remove_mapping_at_ix as written: RemoveEntry followed by the update_stack and update_nav_sensitive of FinishUpdate, panicking where either does |
| PlotPopovers.RemoveMappingTakesEntry | src/plots/plot_popover.rs:276-303 | the removal panics exactly when the stack has no child ix + 1 or no plot list holds ix + 1; otherwise exactly one entry ix + 1 leaves the first list holding it, the other lists stay as they were, the selection goes to position 0 of plot 0, and the whole call ends in the stack and button update of that selection |
| PlotPopovers.RemoveStaleIndexPanics | src/plots/plot_popover.rs:276-303 | as written, stack indices above the removed child are not renumbered: plot 0 holding children 1 and 2 of three, removing mapping 0 leaves index 2 in a stack of two and update_stack panics |
| PlotPopovers.RemoveMappingFixedKeepsWellFormed | src/plots/plot_popover.rs:276-303 | with the indices above the removed child moved one down, removing a mapping held once never panics and leaves a well-formed selection over one child fewer |
| PlotPopovers.PlotPopover.constructor | src/plots/plot_popover.rs:52-75 | a new popover selects plot 0 with four empty lists and position 0 |
| PlotPopovers.PlotPopover.UpdateNavSensitive | src/plots/plot_popover.rs:195-231 | the method sets the buttons to NavSensitive and changes nothing else |
| PlotPopovers.PlotPopover.Navigate | src/plots/plot_popover.rs:137-170 | the method moves the selection as NavigateSpec says and panics exactly when it does |
| PlotPopovers.PlotPopover.AddMapping | src/plots/plot_popover.rs:254-272 | the method's new state is the one AddMappingSpec gives, and it panics exactly when the specification does |
| PlotPopovers.PlotPopover.RemoveMappingAtIx | src/plots/plot_popover.rs:276-303 | the method removes the entry, then updates the stack and the buttons; its new state is the one RemoveMappingSpec gives (as written, without renumbering), and it panics exactly when the specification does |
| PlotPopovers.PlotPopover.GetSelectedMapping | src/plots/plot_popover.rs:366-372 | the method returns SelectedMapping of the current selection |
| PlotPopovers.AddMappingSecondPlotPanics | src/plots/plot_popover.rs:254-269 | as written, a first mapping in plot 0 and then a second one in plot 1 make add_mapping panic, because the position is set from the stack index and not from the plot's list |
| PlotPopovers.AddMappingFixedSelectsNew | src/plots/plot_popover.rs:254-272 | with the position set to the last entry of the plot's list, add_mapping never panics on a well-formed selection, keeps it well formed, shows the new menu and selects the new mapping |
| Utils.RenderLines | src/utils.rs:49-52 | reading back the text written for a list of clean entries gives the list again (with lines 95-101) |
| Utils.Overwrite | src/utils.rs:53-54 | writing from the start of a file opened without truncation gives a file that starts with the new text and is as long as the longer of the two |
| Utils.OverwriteKeepsStaleLines | src/utils.rs:49-63 | as written, removing the first of two entries of equal length leaves the old bytes of the second, so the next load reads the second entry twice (with lines 33-37, 81-86) |
| Utils.StaleTail | src/utils.rs:49-63 | writing the one-entry text over the two-entry text of equal-length entries leaves the text of a list holding the second entry twice |
| Utils.RemoveFirst | src/utils.rs:81-90 | removing an entry that is present takes exactly one copy of it out of the list; an absent entry leaves the list unchanged |
| Utils.Pushed | src/utils.rs:65-79 | after push_recent the pushed path is the last entry |
| Utils.PushedBelowMem | src/utils.rs:71-73 | a list shorter than mem stays shorter than mem after a push, and for mem of at least 2 it keeps the pushed path last |
| Utils.PushedNoDuplicates | src/utils.rs:67-73 | pushing onto a list without repeated entries gives a list without repeated entries |
| Utils.RemoveFirstDistinct | src/utils.rs:81-90 | removing from a list without repeats leaves no copy of the entry and no repeats |
| Utils.RecentList.constructor | src/utils.rs:32-47 | a new list holds the lines of the file it was opened on |
| Utils.RecentList.PushRecent | src/utils.rs:65-79 | the list becomes Pushed of the old list, and the file holds exactly its text: the corrected, truncating write (Findings; Utils.Overwrite is the write as written) |
| Utils.RecentList.Remove | src/utils.rs:81-93 | the list becomes RemoveFirst of the old list; the file is rewritten only when the entry was present, and then holds exactly the new list's text: the corrected, truncating write (Findings) |
| Utils.RecentList.LoadedItems | src/utils.rs:111-118 | loaded_items returns the current list |
| Utils.RecentListReloads | src/utils.rs:49-93 | with the file rewritten in full, the next load after a push or a removal gives back exactly the new list (with lines 95-109) |
| Utils.Broken | src/utils.rs:259-270 | break_string keeps the length and changes only spaces, each into a newline |
| Utils.BrokenOncePerSegment | src/utils.rs:259-270 | between two multiples of the line length at most one space becomes a newline, and none before the first multiple |
| Utils.DueStep | src/utils.rs:262-268 | a break is due at a multiple of the line length; elsewhere it is due exactly when it was due at the previous position and that position held no space |
| Utils.BreakString | src/utils.rs:259-270 | the loop computes Broken for a positive line length; a zero line length panics as soon as the string has two characters |
| ConnStrings.Present | src/conn_popover.rs:546-548 | an entry counts only when it holds non-empty text |
| ConnStrings.Assemble | src/conn_popover.rs:568-591 | every assembled string starts with "postgresql://" |
| ConnStrings.InfoOfEntries | src/conn_popover.rs:546-563 | the field map holds exactly the present entries, each under its own name, and never a port, because the host comparison against " host" never matches |
| ConnStrings.ConnStrShape | src/conn_popover.rs:546-591 | the string is "postgresql://", the user, ":" and the password, "@" and the host (localhost when absent), ":5432" and "/dbname", each part only when its entry is present; a host other than localhost or 127.0.0.1 is refused as remote |
| ConnStrings.EmptyEntryIgnored | src/conn_popover.rs:546-548 | an empty entry gives the same result as a missing one |
| ConnStrings.GenerateConnStr | src/conn_popover.rs:546-591 | the method returns ConnStr of the entries |
| ConnStrings.AssembleConnStr | src/conn_popover.rs:568-591 | the piece-by-piece assembly returns Assemble of the field map |
| ConnStrings.HostWithPortRefused | src/conn_popover.rs:549-563 | as written, a local host given with a port is refused as a remote connection (with lines 575-583) |
| ConnStrings.HostWithPortKept | src/conn_popover.rs:549-563 | with the host field compared against "host", a local host given with a port keeps that port in the string (with lines 584-588) |
| ConnStrings.CheckEntriesClear | src/conn_popover.rs:452-461 | the entries are clear exactly when host, user and password are all empty; the database name is not looked at |
| BoundSqls.NameListFrom | src/report/mod.rs:25-56 | get_name_list only moves forward through the tokens and never past their end |
| BoundSqls.GetNameList | src/report/mod.rs:25-56 | the token-by-token loop returns the names and the stopping token that GetNameListSpec gives |
| BoundSqls.ParseUsing | src/report/mod.rs:80-94 | a using clause that parses keeps the into list and the statement it was given |
| BoundSqls.ParseInto | src/report/mod.rs:58-78 | an into clause that parses keeps the statement it was given |
| BoundSqls.FromTokensShape | src/report/mod.rs:100-138 | a statement that parses starts with EXECUTE, takes the quoted text as its statement and has INTO or USING at the fifth token; with USING there, the into list is empty |
| BoundSqls.NameTokens | src/report/mod.rs:25-56 | a written-out name list is empty exactly when it has no names |
| BoundSqls.NameListReadsNames | src/report/mod.rs:25-56 | reading a written-out name list collects exactly its names and leaves the reader just after it, still expecting a comma before a further name |
| BoundSqls.NameListRoundTrip | src/report/mod.rs:25-56 | a written-out name list closed by ';' reads back as that list, with ';' as its end token |
| BoundSqls.NamesThenEnd | src/report/mod.rs:25-56 | a name list followed, after at most one space, by ';' or a keyword is read, and the reader stops right after that token |
| BoundSqls.FromTokensRoundTrip | src/report/mod.rs:100-138 | parsing the written-out `EXECUTE 'stmt' INTO names USING names;` statement gives back its statement, into list and using list, with the module's test as one instance (with lines 252-256) |
| BoundSqls.UsingAtEndOfInput | src/report/mod.rs:80-94 | the using list may also run to the end of the input |
| BoundSqls.NameListErrors | src/report/mod.rs:34-52 | two names with no comma between them, a comma with no name before it, a double comma, and any token other than a name, comma, space, ';' or keyword are refused |
| BoundSqls.IntoNeedsEnd | src/report/mod.rs:58-78 | after INTO, a list that runs to the end of input or stops at a keyword other than USING is refused |
| SqlTypes.TypeName | src/functions/sql_type.rs:63-76 | every scalar type name has three characters, except "String" with six |
| SqlTypes.ParseType | src/functions/sql_type.rs:19-28 | text reads as a type only when it is that type's name |
| SqlTypes.TypeNameRoundTrip | src/functions/sql_type.rs:19-28 | every type's name reads back as that type, and exactly the five names read as a type (with lines 63-76) |
| SqlTypes.Slice | src/functions/sql_type.rs:113-131 | slicing the text succeeds exactly when the end lies within it |
| SqlTypes.Inner | src/functions/sql_type.rs:87-93 | inner returns the wrapped scalar type, whatever the aggregate form |
| SqlTypes.TypeAtName | src/functions/sql_type.rs:113-131 | a type name that starts at the fixed offset is read, whatever follows it |
| SqlTypes.ParseAggTypeOpening | src/functions/sql_type.rs:107-137 | the aggregate form is read from the opening alone and the type at a fixed offset; the closing brackets and anything after them are ignored |
| SqlTypes.AggTypeRoundTrip | src/functions/sql_type.rs:107-153 | Display followed by try_from gives back every aggregate type, the twelve of the module's test among them (with lines 167-182) |
| SqlTypes.ParseAggTypeOther | src/functions/sql_type.rs:107-137 | text starting with neither "&[" nor "Vec<" is no aggregate type |
| SqlTypes.ParseAggTypeShort | src/functions/sql_type.rs:107-137 | an opening with too little text after it panics at the slice |
| SqlTypes.ParseScalarVariadicForms | src/functions/sql_type.rs:32-51 | a plain type name is one argument of that type, and "&[" followed by a type name is a variadic argument of that type |
| SqlTypes.TypeAt | src/functions/sql_type.rs:37-44 | the element type after a prefix: the three-letter slice is tried first, then the six-letter slice, which panics when the text is too short |
| SqlTypes.ParseScalarVariadic | src/functions/sql_type.rs:32-51 | a plain type is a non-variadic argument; "&[" followed by a type is a variadic one; anything else is no argument type |
| SqlTypes.ParseAggType | src/functions/sql_type.rs:107-137 | "&[&[", "&[" and "Vec<" followed by a type read as a nested, simple and owned aggregate; any other text is refused |
| Functions.ParseArgs | src/functions/function.rs:128-130 | the argument list is read exactly when every untrimmed piece names a type, and then each type's name is its piece |
| Functions.ParseArgList | src/functions/function.rs:127-130 | the argument loop returns ParseArgs of the pieces |
| Functions.FromParts | src/functions/function.rs:117-141 | a function read from its text has no doc and no variadic argument |
| Functions.FromStr | src/functions/function.rs:107-144 | the method returns the text form's reading, FromStrSpec |
| Functions.FromSides | src/functions/function.rs:117-141 | the argument-by-argument reading of the two sides of the arrow is FromParts |
| Functions.ArrowSplit | src/functions/function.rs:112-114 | text with a single "->", no space at its ends and no other '-' is cut into the text before and after the arrow |
| Functions.ParenSplit | src/functions/function.rs:117-121 | the left part is cut into the name before '(' and the arguments before ')' |
| Functions.SignatureLine | src/functions/function.rs:107-144 | a line `name(args)->ret` with an identifier name and argument text free of brackets and '-' reads as its name, its arguments and its return type |
| Functions.ParseArgsNames | src/functions/function.rs:128-130 | the type names written out read back as those types |
| Functions.FromStrRoundTrip | src/functions/function.rs:107-144 | reading the text form of a function with an identifier name and at least one argument gives the function back |
| Functions.NoArgsRefused | src/functions/function.rs:128-130 | empty parentheses are refused, because their one empty piece names no type |
| Functions.SpaceAfterCommaRefused | src/functions/function.rs:128-130 | a space after a comma stays in the next piece, so the function is refused |
| Functions.SimpleFromTable | src/functions/function.rs:146-160 | a table is read exactly when "variadic", if present, is a boolean and "name" is a string holding a readable text form; the result is that function with its variadic flag |
| Functions.AggregateFromTomlExact | src/functions/function.rs:75-105 | an aggregate is read exactly from a table whose four entries are strings, and carries those strings |
| Functions.FunctionFromToml | src/functions/function.rs:162-172 | a function is read only from a string value, as its text form |
| Functions.SearchModSpec | src/functions/function.rs:279-297 | whatever search_mod returns is a module with the name searched for |
| Functions.SearchMod | src/functions/function.rs:279-297 | the recursive search returns SearchModSpec |
| Functions.SearchModFirst | src/functions/function.rs:279-297 | search_mod finds the first module with the name in depth-first order |
| FnParsers.ParseMode | src/functions/parser.rs:33-47 | text reads as a mode only when it is that mode's name |
| FnParsers.ModeRoundTrip | src/functions/parser.rs:33-61 | every mode's name reads back as that mode, and exactly the four names read as a mode |
| FnParsers.LoadDoc | src/functions/parser.rs:107-126 | the attribute loop gives DocOf of the attributes |
| FnParsers.DocClean | src/functions/parser.rs:107-126 | a doc holds no quote or '=', starts and ends with no space and is no longer than the attribute text; it is absent exactly when nothing is left after dropping and trimming |
| FnParsers.NoDocAttrs | src/functions/parser.rs:109-115 | a function without doc attributes has no doc |
| FnParsers.TypedTexts | src/functions/parser.rs:137-148 | a receiver input contributes no type text |
| FnParsers.ArgTypesOk | src/functions/parser.rs:137-148 | the argument types are read exactly when every typed input names a type, and then they are those types, in order |
| FnParsers.ArgTypesFirstErr | src/functions/parser.rs:141-143 | a failure names the first typed input that names no type |
| FnParsers.ArgErrSticks | src/functions/parser.rs:137-148 | once a prefix of the inputs fails, the whole list fails with the same error |
| FnParsers.ReturnTypeAsWritten | src/functions/parser.rs:173-192 | as written, a return type is read only from a `Result` with a `String` error, and its name is the untrimmed inner piece |
| FnParsers.ReturnType | src/functions/parser.rs:173-192 | with the inner piece trimmed, a return type is read only from a `Result` with a `String` error, and its name is the trimmed inner piece |
| FnParsers.TokenFormChecks | src/functions/parser.rs:178-181 | the token text of `Result<T, String>` passes both checks and leaves the type with a space on each side as the inner piece |
| FnParsers.TokenFormRefusedAsWritten | src/functions/parser.rs:185-191 | as written, the token text of `Result<T, String>` is refused, because its inner piece keeps the spaces around the type |
| FnParsers.TokenFormRead | src/functions/parser.rs:185-191 | with the inner piece trimmed, the token text of `Result<T, String>` reads as T for each of the five types |
| FnParsers.PlainTextRefused | src/functions/parser.rs:178-183 | a return type without '<' other than `Result` itself is refused |
| FnParsers.PlainTypeRefused | src/functions/parser.rs:178-183 | the registry's element types are refused as return types because they are not a `Result` |
| FnParsers.NoOutputRefused | src/functions/parser.rs:194 | a function without a return type is refused |
| FnParsers.SignatureOf | src/functions/parser.rs:129-196 | a signature keeps the function's name, carries its doc and is never variadic; built on the corrected ReturnType, which trims the inner piece (Findings) |
| FnParsers.SignatureOfMeaning | src/functions/parser.rs:129-196 | a signature is read exactly when the argument and return types are, and it carries them; built on the corrected ReturnType, which trims the inner piece (Findings) |
| FnParsers.FunctionSignature | src/functions/parser.rs:129-196 | the method returns SignatureOf; built on the corrected ReturnType, which trims the inner piece (Findings) |
| FnParsers.ReadArgTypes | src/functions/parser.rs:137-148 | the argument loop returns ArgTypes |
| FnParsers.ReadReturnType | src/functions/parser.rs:165-194 | the return-type checks return ReturnType; built on the corrected ReturnType, which trims the inner piece (Findings) |
| FnParsers.CollectOk | src/functions/parser.rs:249-266 | collecting succeeds exactly when every result does, and then holds their values in order |
| FnParsers.CollectFirstErr | src/functions/parser.rs:249-266 | a failed collection carries the error of its first failing result |
| FnParsers.PublicFns | src/functions/parser.rs:249-266 | only public functions are selected |
| FnParsers.TopLevelReference | src/functions/parser.rs:249-266 | parse_top_level_funcs reads the signatures of the public top-level functions, and only those; built on the corrected ReturnType, which trims the inner piece (Findings) |
| FnParsers.ParseTopLevelFuncs | src/functions/parser.rs:249-266 | a parse error is returned as it is; otherwise the public top-level functions are read in order; built on the corrected ReturnType, which trims the inner piece (Findings) |
| FnParsers.FunctionFromItemFn | src/functions/function.rs:174-187 | a function item is read only when it is public, and then as function_signature reads it; built on the corrected ReturnType, which trims the inner piece (Findings) |
| FnParsers.ReadFuncsReference | src/functions/function.rs:299-313 | read_funcs_at_toplevel succeeds only when every function is public, and then it agrees with parse_top_level_funcs; built on the corrected ReturnType, which trims the inner piece (Findings) |
| FnParsers.TryFromItemFn | src/functions/function.rs:174-187 | the conversion runs the function_signature loop on a public item and refuses a private one with the visibility error, as FunctionFromItemFn states; built on the corrected ReturnType, which trims the inner piece (Findings) |
| FnParsers.ReadFuncsAtToplevel | src/functions/function.rs:299-313 | the item loop returns ReadSpec; built on the corrected ReturnType, which trims the inner piece (Findings) |
| FnParsers.NestedReference | src/functions/parser.rs:199-247 | parse_fn_or_mod reads the signatures of exactly the public functions reached through public modules, in depth-first order; built on the corrected ReturnType, which trims the inner piece (Findings) |
| FnParsers.ParseFnOrMod | src/functions/parser.rs:227-247 | the method returns FnOrModSpec; built on the corrected ReturnType, which trims the inner piece (Findings) |
| FnParsers.ParseModSignature | src/functions/parser.rs:199-223 | the method returns ModSpec of the module; built on the corrected ReturnType, which trims the inner piece (Findings) |
| FnParsers.ParseNestedSignatures | src/functions/parser.rs:270-279 | a parse error is returned as it is; otherwise parse_fn_or_mod is applied to each item in order; built on the corrected ReturnType, which trims the inner piece (Findings) |
| FnParsers.TopStep | src/functions/parser.rs:255-262 | one top-level item: a public function contributes its signature, anything else nothing |
| FnParsers.TopLevelSpec | src/functions/parser.rs:249-266 | the top-level item loop, stopping at the first failing signature |
| FnParsers.ReadStep | src/functions/function.rs:299-313 | one item of read_funcs_at_toplevel: a function item is converted by try_from, anything else is skipped |
| FnParsers.ReadSpec | src/functions/function.rs:299-313 | the item loop of read_funcs_at_toplevel, stopping at the first error |
| FnParsers.FnOrModSpec | src/functions/parser.rs:227-247 | a public module is read as parse_mod_signature reads it, a public function as its signature, anything else as nothing |
| FnParsers.ItemsSpec | src/functions/parser.rs:203-222 | the items of a module's inline content, read in order and stopping at the first error |
| FnParsers.ModSpec | src/functions/parser.rs:199-223 | a module without inline content gives no signatures; otherwise its items are read by ItemsSpec |
| FnParsers.FileSpec | src/functions/parser.rs:270-279 | a file's items are read as the content of a public module |
| FnParsers.ParseTestRefused | src/functions/parser.rs:300-319 | the file of the module's test (`sum_in(d: f32) -> f32` inside a public module, then `sum_out`) fails on `sum_in`, which does not return a `Result`; stated for any element types in place of f32 and any item after the module |
| StatusStacks.Index | src/status_stack.rs:41-50 | every status selects one of the five boxes, and only Disconnected and Ok select the first |
| StatusStacks.Message | src/status_stack.rs:52-59 | exactly the connection error, the executed statement and the SQL error carry a message, and it is their own text |
| StatusStacks.IndexSelectsBox | src/status_stack.rs:41-50 | apart from Ok, two statuses share a box exactly when they are of the same kind, and each status selects the box named after it (with lines 86-112) |
| StatusStacks.StatusStack.constructor | src/status_stack.rs:86-112 | a new stack is Disconnected, with the status page and the first box visible |
| StatusStacks.StatusStack.GetStatus | src/status_stack.rs:77-84 | get_status returns the stored status |
| StatusStacks.StatusStack.Update | src/status_stack.rs:159-188 | update stores the status and shows it: Ok shows the other widget, any other status its own box with its message in its own label; no other label changes |
| StatusStacks.StatusStack.ShowCurrStatus | src/status_stack.rs:115-128 | the current status is shown again and then the status page, even for Ok, where the box last shown stays |
| StatusStacks.StatusStack.TryShowAltOrConnected | src/status_stack.rs:132-141 | the other widget is shown when the status is Ok, the status page otherwise; nothing else changes |
| StatusStacks.StatusStack.TryShowAlt | src/status_stack.rs:145-154 | the other widget is shown when the status is Connected or Ok, the status page otherwise; nothing else changes |
| SqlEditors.TickSpec | src/sql_editor.rs:529-555 | a stopped clock or one without an interval is left alone; a started clock counts 500 ms per tick until the time passed reaches the interval, then restarts the count and clicks refresh when the button is sensitive |
| SqlEditors.ClockInvKept | src/sql_editor.rs:529-555 | ticks, toggles, the refresh arm and the reset keep the clock among its reachable states: an interval of 0 or 2000 ms, a started clock only with 2000 ms, and a time passed in steps of 500 ms up to the interval (with lines 182-205, 505-524, 814-819) |
| SqlEditors.UpdateClock.constructor | src/sql_editor.rs:505 | the clock starts stopped, with no interval and no time passed |
| SqlEditors.UpdateClock.Tick | src/sql_editor.rs:529-555 | the timer callback moves the clock as TickSpec says and reports the same click |
| SqlEditors.UpdateClock.Toggle | src/sql_editor.rs:509-524 | the update toggle stops the clock and sets the interval to 2000 ms when active, 0 otherwise |
| SqlEditors.UpdateClock.Arm | src/sql_editor.rs:814-819 | a refresh click starts the clock from no time passed when there is an interval |
| SqlEditors.UpdateClock.Reset | src/sql_editor.rs:197-203 | deactivating the editor stops the clock and clears the interval and the time passed |
| SqlEditors.Clicks | src/sql_editor.rs:529-555 | n ticks give n click decisions |
| SqlEditors.ClicksSplit | src/sql_editor.rs:529-555 | the clicks of m + n ticks are those of m ticks followed by those of n ticks from the clock reached |
| SqlEditors.Periodic | src/sql_editor.rs:529-555 | a tick that returns to its clock after p ticks and clicks only on the last of them clicks on every p-th tick and never in between |
| SqlEditors.FiresEveryFifthTick | src/sql_editor.rs:538-549 | as written, an armed clock clicks refresh on every fifth tick of 500 ms, every 2500 ms although the interval is 2000 ms |
| SqlEditors.TickIntended | src/sql_editor.rs:538-549 | with the tick counted before the comparison, refresh is clicked once the interval has passed |
| SqlEditors.IntendedFiresEveryFourthTick | src/sql_editor.rs:538-549 | with the tick counted first, refresh is clicked every fourth tick, every 2000 ms (with lines 509-524) |
| SqlEditors.PollSpec | src/sql_editor.rs:371-392 | nothing happens until a query is sent; an answer unlocks the editor and clears the count; otherwise the count grows, and the 312th poll without an answer gives up with a time-out (with lines 298-301) |
| SqlEditors.SendSpec | src/sql_editor.rs:207-260 | a failed send returns its error and changes nothing; otherwise the query counts as sent even without text, and the editor is locked when there was text |
| SqlEditors.PollInvKept | src/sql_editor.rs:371-392 | polls and sends keep the poll count below 312, and at zero while no query is pending (with lines 207-260) |
| SqlEditors.TimeoutAtLastTry | src/sql_editor.rs:378-392 | a sent query with no earlier polls pending is given up on exactly at the 312th poll without an answer, within 5 seconds at 16 ms per poll; before that the polls only count |
| SqlEditors.QueryPoll.constructor | src/sql_editor.rs:297 | no query pending, no polls counted and the editor unlocked |
| SqlEditors.QueryPoll.UpdateQueries | src/sql_editor.rs:207-260 | the method changes the poll state and returns what SendSpec gives |
| SqlEditors.QueryPoll.Tick | src/sql_editor.rs:298-400 | the poll follows PollSpec, and a time-out shows the time-out error on the status stack |
| SqlEditors.FileName | src/sql_editor.rs:686 | a file name is the path's last component |
| SqlEditors.Parent | src/sql_editor.rs:687 | the parent exists exactly for a non-empty path and is the path without its last component |
| SqlEditors.ClipName | src/sql_editor.rs:685-696 | a name is listed exactly when the path has a file name |
| SqlEditors.ClipNameKeepsPath | src/sql_editor.rs:685-696 | a file below a directory is listed under its whole path |
| SqlEditors.ClipNameTopLevel | src/sql_editor.rs:685-696 | a file at the top of a path gets an extra leading '/': "/a.sql" is listed as "//a.sql" and "a.sql" as "/a.sql" |

## Left out

- GTK widgets, signal wiring and widget state are out. Only the state that decides behaviour is kept: selections, sensitivities, visible pages and labels. The initial text of the glade labels, the table toggle and keyboard focus are not modelled.
- Cairo rendering is out. Drawing is modelled only as the abstract list of primitives selected (segments, discs, labels). The `as i32` pixel truncation in `draw_to_context` is not modelled.
- The matplotlib, pandas and argument-handling code of the layout reader script is out (`adjust_labels`, `savefig`, `read_csv`, `read_layout`, `read_data`, `read_output`).
- Floating-point formatting and transcendental maths are out: `steps_to_labels`, `display_with_precision`, and the logarithmic branches of `GridSegment` and `ContextMapper`. Only the linear branches are modelled, over `real`. The rounding of `i64` to `f64` is not modelled.
- XML parsing and XPath are out. The layout is an explicit tree of tagged nodes with attributes, given as input. `children_as_hash` reads a node's children from that tree.
- Database engines are out. Query results, rows, declared column types and statements are inputs, and so is the outcome of sending a query.
- The listener's worker thread and its channels are out. The environment receives the listener's results as values.
- Dynamic loading and calling of user functions are out. A function call is a parameter that gives the result tables.
- The external parsers are out: the sqlparser tokenizer and statement parser, the CSV reader behind `Table::new_from_text`, the `syn` source parser, the TOML reader, and the text parsing of `i64`, `f64` and `bool`. The model takes their output: tokens, statements, named columns of text, item trees and TOML values.
- The text of error messages that embed a token's `Display` form is not modelled. Only the fixed messages are compared.
- Utils.RecentList: the file is a string field, and `PushRecent` and `Remove` replace it whole, which is the corrected, truncating write; the write as written (from the start of a file opened without truncation) is `Utils.Overwrite`, see Findings. Read and write errors are not modelled.
- `clip_name` handles paths without the operating system's normalisation. A path is a list of components plus an absolute flag, and non-UTF-8 paths are not modelled.
- `RefCell` borrow failures are not modelled. Every `try_borrow_mut` in the modelled code is taken to succeed, so those branches only print.
- Strings are sequences of characters. `break_string` and the fixed-offset slices of `SqlAggType::try_from` index bytes, so they are modelled for ASCII text only.
- The polling timer of the SQL editor is modelled only for the retry counter and the time-out. What happens to the results when they arrive belongs to the environment model.
- The refresh clock of `sql_popover.rs` duplicates the one in `sql_editor.rs` and is modelled once, as the editor's.
- `mapping_menu.rs` duplicates the arity dispatch of `plot_workspace.rs`, and its `DataSource` handling differs from the workspace's. The workspace's version is the one modelled.
- `surface.rs` and the mapping `source.rs` are not part of this model. A surface mapping appears only as a mapping kind with its property keys.
- `Table` truncation, `sql_string`, `to_html` and `flatten`, and the report notebook's markdown handling, are not part of this model.
- Tables.TryNumeric: `try_numeric` tries the `i32` conversion twice. The model tries it once, which gives the same result.
- TableColumns.DisplayContent: floating-point and decimal entries are shown by a text function passed as a parameter, because float formatting is out. The decimal rounding to 12 places and its fallback are not modelled.
- `scripts/parse_plot.py` does not run as written: line 259 is an assignment with no right-hand side, lines 189 and 191 lack their colons, and tabs and spaces are mixed in the indentation. Each function is modelled as its body evidently reads once these are mended.
- ParsePlot.GetSegmentProperties: the prefix `/object[@name=...]` (parse_plot.py:9) is an absolute path, which lxml evaluates from the document root, where no such object exists; as written every lookup finds nothing and raises IndexError. The model reads the segment object among the children of the area element, which is what the caller at lines 262-263 intends.
- ParsePlot.GetDesignProperties: the paths start at `/plotgroup` (lines 30, 49 and 261), so any document whose root is not `plotgroup` finds nothing; the model looks under the given root and does not check its tag. The same holds for ParsePlot.GetDimensions and ParsePlot.GetAreaList.
- ParsePlot.GetAreaList: the function ends with the bare expression `areas` (line 266) and so returns None; the model returns the list it builds.
- ParsePlot.DefineFigureSplit: the source reads `design.split` on the dictionary `get_design_properties` returns, which raises AttributeError, and calls `f.subplots` with no `f` in scope (lines 187-188); the model takes the split text itself and describes the figure the Unique branch asks for.
- PlotAreas.PlotArea.ReloadMappings: the per-type constructors (`LineMapping::new` and the others, and their `update_layout`, such as line.rs:105-112) unwrap the properties they read and panic when one is missing or unreadable. These panics are not modelled: every node of a known type builds a mapping with empty data.
- PlotAreas.PlotArea.UpdateMapping: `surface.rs` is not part of this model, so a surface mapping takes any non-empty data; the data vectors are stored whole rather than split into the mapping's fields.
- PlotGroups.PlotGroup.LoadLayout: after a failed load the plot list is not stated (the source keeps the partly built areas). The grid reads of `reload_layout_node` are inputs (`AreaData.grid`), because they parse widget properties.
- DataSources.UpdateData: the `cols` parameter stands for the columns `t_env.get_columns(...)` returns (plot_workspace.rs:689). The `unwrap` there, which panics when the environment cannot give the columns, is not modelled.
- GridSegments.NewGridSegment: requires a non-zero number of intervals. With zero intervals the source divides by zero and fills the steps with NaN or infinite values, which `real` cannot hold.
- Strs.Trim: only space, tab, line feed and carriage return count as whitespace. Rust's `str::trim` also strips form feed, vertical tab and the other Unicode White_Space characters.
- Strs.ParseNat: the value is unbounded. `parse::<usize>` also refuses numbers above 2^64 - 1.

## Findings

| source | as written | input that shows it | evidently intended | confidence | as-written member | corrected member |
|---|---|---|---|---|---|---|
| src/plots/plotview/text.rs:79-94 | `description` writes the slant word before "Bold", and `new_from_string` then cuts the weight off at the slant word | the font Sans, Bold, Italic, size 12 reads back as a regular italic font with family "Sans " | a font read back from its own description keeps its weight and slant | not executed | Fonts.BoldSlantedLosesWeight | Fonts.FixedRoundTrip |
| src/plots/plotview/mod.rs:138-148 | the Four split offsets pane 1 across by w * v_ratio and pane 2 down by h * h_ratio, the swapped ratios | h_ratio 1/4 and v_ratio 3/4 on a 100 by 100 drawing: pane 0 ends at 25 across but pane 1 starts at 75 | each pane starts where its left or upper neighbour ends | not executed | PlotGroups.FourCornerGap | PlotGroups.PanesMeetFixed |
| src/plots/plotview/mod.rs:180-181 | pane 0 of the Vertical split is scaled to the full width while pane 1 starts at w * h_ratio | any h_ratio below 1: the two panes overlap | pane 0 takes the fraction h_ratio, so the panes meet | not executed | PlotGroups.VerticalOverlap | PlotGroups.PanesMeetFixed |
| src/tables/nullable_column.rs:122-137 | `try_into` swaps the null positions out of the column before the loop that reads them | any column built from options holding a None, such as [None, Some(1)] | converting back gives the options the column was built from | not executed | NullableColumns.AsWrittenPanicsWithNulls | NullableColumns.TryIntoRoundTrip |
| src/tables/nullable_column.rs:87-89 | `truncate` cuts the values but keeps the length and the null positions | a string column of length 3 with a null at 0 and values "a", "b", truncated to 1: `display_content` runs out of values | a truncated column shows its first entries | not executed | NullableColumns.TruncatedDisplayPanics | NullableColumns.TruncateFixedDisplay |
| src/tables/table.rs:211-226 | `to_csv` writes a comma before every shown field except the one at position 0, even when that column is hidden | a two-column table showing only its second column: every line starts with a comma | commas only between shown fields | not executed | Tables.CsvLeadingComma | Tables.CsvLineFixedSplits |
| src/tables/table.rs:177-183 | `sql_table_insertion` quotes a field only when its type is "text", but `sql_types` returns "TEXT" | a one-record table of two text columns: the fields are inserted unquoted | text fields are single-quoted | not executed | Tables.InsertionAsWrittenUnquoted | Tables.InsertionFixedQuoted |
| src/tables/table.rs:168-170 | `sql_table_insertion` returns no statement for a table with fewer than two columns | a one-column table with records gets no insert statement | every table with records gets its insert statement | not executed | Tables.InsertionAsWrittenSingleColumn | Tables.InsertionFixedSingleColumn |
| src/tables/table.rs:478-485 | `BoolField::from_str` maps "'1' or '0'" to the same style as "'TRUE' or 'FALSE'" | no text reads as the Integer style | each style is read from its own text | not executed | Tables.BoolFieldIntegerUnreachable | Tables.BoolFieldRoundTrip |
| src/tables/table.rs:501-503 | `NullField::from_str` matches "Omit'" with a stray quote | "Omit" is refused | "Omit" reads as Omit | not executed | Tables.NullFieldOmitRefused | Tables.NullFieldRoundTrip |
| src/tables/sqlite.rs:200-207 | after the first row, a NULL is skipped without being appended | a text column whose second row is NULL: a two-row result becomes a one-row table | the NULL is kept as a null entry | not executed | SqliteTables.BuildDropsLaterNull | SqliteTables.BuildFixedKeepsLaterNull |
| src/tables/environment.rs:181-205 | `execute_saved_funcs` replays the saved calls with recording on, so they are saved again | two successful re-runs in a row: the second removes twice as many tables as the first put back | a re-run leaves the saved calls as they were | not executed | TableEnvironments.SavedFuncsTwiceAsWritten | TableEnvironments.SavedFuncsRepeatable |
| src/plots/plot_popover.rs:254-269 | `add_mapping` sets the position in the plot's list to the stack index less one | a first mapping in plot 0, then a second one in plot 1: the position is 1 in a list of one entry, and `update_stack` panics | the position of the new entry, the last of its plot's list | not executed | PlotPopovers.AddMappingSecondPlotPanics | PlotPopovers.AddMappingFixedSelectsNew |
| src/plots/plot_popover.rs:276-303 | `remove_mapping_at_ix` takes the entry out of its plot list but leaves the stack indices above the removed child as they were, then calls `update_stack` | plot 0 holding children 1 and 2 of a stack of three, mapping 0 removed: plot 0 holds 2 in a stack of two and `update_stack` panics | the indices above the removed child move one down | not executed | PlotPopovers.RemoveStaleIndexPanics | PlotPopovers.RemoveMappingFixedKeepsWellFormed |
| scripts/parse_plot.py:171-180 | the text and area branches index `data`, the list of CSV frames, with the column name `mapping['x']` | a text mapping with x "a", y "b" and text "c" over one frame holding those three columns: `data['a']` raises TypeError | the columns are searched in the frames, as `search_data` does for line and scatter | not executed | ParsePlot.TextAreaRaiseTypeError | ParsePlot.DrawMappingFixedTextArea |
| src/utils.rs:49-63 | `write_to_file` writes from the start of a file opened without truncation | the list ["abc", "def"] with "abc" removed: the file becomes "def\ndef\n", and the next load shows "def" twice | the file holds exactly the new list | not executed | Utils.OverwriteKeepsStaleLines | Utils.RecentListReloads |
| src/conn_popover.rs:549-563 | the host entry is compared against " host", with a leading space, so the port is never split off | host "localhost:5433" is refused as a remote connection | the host is compared against "host", so the port is kept | not executed | ConnStrings.HostWithPortRefused | ConnStrings.HostWithPortKept |
| src/functions/parser.rs:185-191 | the inner type of the return type is read without trimming, from token text that has spaces around it | `-> Result<f64, String>`, whose token text is `Result < f64 , String >`, is refused | the inner type is trimmed and read as f64 | not executed | FnParsers.TokenFormRefusedAsWritten | FnParsers.TokenFormRead |
| src/sql_editor.rs:538-549 | the refresh clock compares the time passed with the interval before it counts the current tick | an armed clock with the 2000 ms interval clicks on every fifth 500 ms tick, every 2500 ms | a click every fourth tick, every 2000 ms | not executed | SqlEditors.FiresEveryFifthTick | SqlEditors.IntendedFiresEveryFourthTick |
