# Ext.ux.grid.Printer — a verified model of its core rules

`Ext.ux.grid.Printer` prints an Ext JS grid: it works out which columns to
print, renders every cell as an HTML `<td>`, adds group and summary rows,
and writes the resulting page into a new browser window. Most of the
component is template markup and framework calls. This project models the
small deterministic rules underneath and proves properties of them in
Dafny:

- **Columns** (`columns.dfy`): how `print` resolves the printed columns. It
  flattens grouped headers one level deep. It then runs a four-branch
  decision list over `dataIndex`, `hidden`, `xtype` and grouped mode, and
  gives an unnamed row-numberer the heading `Row`.
- **CellHtml** (`cell_html.dfy`): the cell serialiser `getHtml`, built by
  successive appends, and the metadata `renderColumn` hands to renderers.
- **Features** (`features.dfy`): `getFeature`. It picks the view's feature
  list (`features`, then `featuresMC`, then `normalView.featuresMC`) and
  returns the first feature that serves the requested type.
- **Summaries** (`summaries.dfy`): both copies of `getSummary`. The
  column's summary type picks the store reducer that is called. The
  integer reducers count, min, max and sum are modelled as functions.
- **RawData** (`raw_data.dfy`): `getSummaryRcd`. It finds the row of a
  remote summary payload that belongs to a group.
- **TreeRecords** (`tree_records.dfy`): the records printed for a tree
  store. This is a pre-order `cascadeBy` walk that skips invisible nodes,
  and skips the root when the grid hides it.
- **Printer** (`printer.dfy`): the part of `print` that ties these
  together. It decides grouped mode and the group field, then computes
  the printed columns.
- **Js** and **Wrappers** (`js.dfy`, `wrappers.dfy`) model the JavaScript
  semantics the conditions depend on: truthiness, the loose `==`,
  `undefined` (as `Option`) and a thrown `TypeError` (as `Result`).

The columns, cell, feature, raw-data and tree operations are methods that
loop or append step by step, as the source does. Each is proved equal to a
specification function of its inputs, or proved against the property
outright, and lemmas state what those functions promise. `getSummary`,
which only selects a value, is a pure function.

How JavaScript values are read:

- A property the source leaves unset reads as the empty string, `false` or
  `[]`, as it tests them for truthiness.
- `dataIndex` and the group field are `Option<string>`: `None` is an unset
  (`undefined` or `null`) property. The grouped branch's `===` tells those
  two apart, and the resulting gap is listed under "Left out".
- A cell value is `Option<string>`: `None` is `undefined`, and `Some(s)` is
  the value's text as a template literal would format it.

## Model

| member | source | states |
|---|---|---|
| `Columns.FlattenColumns` | ux/grid/Printer.js:37-44 | The flattening loop builds exactly `Flatten(grid.columns)`. |
| `Columns.FlattenAppend` | ux/grid/Printer.js:38-44 | Flattening distributes over list concatenation: each column is expanded in place, independent of its neighbours. |
| `Columns.FlattenCons` | ux/grid/Printer.js:39-43 | A grouped header (non-empty `items`) is replaced by exactly its children, in order. Any other column is kept where it stands. |
| `Columns.FlattenNoGroups` | ux/grid/Printer.js:38-44 | A list with no grouped header is returned unchanged. |
| `Columns.NestedGroupSurvives` | ux/grid/Printer.js:39-40 | Flattening goes one level only: a header nested in a header is not expanded. |
| `Columns.Keeps` | ux/grid/Printer.js:53-66 | Rownumberer and template columns are always kept. Otherwise, ungrouped: kept iff `dataIndex` is non-empty and the column is not hidden. Grouped: kept iff `dataIndex !== groupField` and the xtype is not `actioncolumn`, with `hidden` not consulted. |
| `Columns.Printed` | ux/grid/Printer.js:57-59 | Only the heading can change. It changes exactly for a rownumberer with an empty heading that the first branch did not take, and it becomes `Row`. |
| `Columns.ClearColumns` | ux/grid/Printer.js:50-68 | The filter loop builds exactly `Cleared(columns, isGrouped, groupField)`. |
| `Columns.ClearedIsSubsequence` | ux/grid/Printer.js:50-68 | The output is an order-preserving selection of the input. One strictly increasing list of positions holds exactly the non-null entries the decision list keeps, and each output column is the entry at its position, changed only as `Printed` says. |
| `Columns.ClearedKeepsSpecialColumns` | ux/grid/Printer.js:57-61 | Every non-null rownumberer or template column appears in the output. |
| `Columns.ClearedDropsOnlyNulls` | ux/grid/Printer.js:52 | Every printed column comes from a non-null entry and differs from it at most in its heading. |
| `Columns.RownumbererHeading` | ux/grid/Printer.js:53-59 | In ungrouped mode, a rownumberer with a data index that is not hidden is taken by the first branch and keeps its empty heading. Only the other rownumberers become `Row`. |
| `CellHtml.ColumnMeta` | ux/grid/Printer.js:163-177 | The default metadata `renderColumn` hands to a renderer. Alignment is the column's `align`, `unselectableAttr` is `unselectable="on"`, and `tdCls`, `css`, `tdAttr`, `innerCls` and `style` are empty. |
| `CellHtml.CellText` | ux/grid/Printer.js:400 | An `undefined` value prints as `&nbsp;`. Any other value prints as itself. |
| `CellHtml.TdClasses` | ux/grid/Printer.js:403-407 | The `<td>` classes are empty iff both `tdCls` and `css` are empty. With both set they are `tdCls + " " + css`, otherwise whichever one is set. |
| `CellHtml.GetHtml` | ux/grid/Printer.js:397-419 | The method appends exactly the cell markup `Markup(value, meta)`. |
| `CellHtml.MarkupOpensTd` | ux/grid/Printer.js:402 | The cell always starts with `<td `. |
| `CellHtml.MarkupClosesWithValue` | ux/grid/Printer.js:400-416 | The cell always ends with `>` + the value verbatim (or `&nbsp;`) + `</div></td>`. |
| `CellHtml.MarkupClassAttribute` | ux/grid/Printer.js:403-408 | A `class="` attribute follows `<td ` iff `tdCls` or `css` is set, and it then holds `TdClasses`. |
| `CellHtml.MarkupAlignment` | ux/grid/Printer.js:412 | ` style="text-align: ` followed by `align` always occurs, right after the opening tags. |
| `CellHtml.MarkupBare` | ux/grid/Printer.js:402-416 | With none of the optional properties set, the cell is exactly the fixed pieces, the alignment, `unselectableAttr` and the value. There is no empty `class=""` and no stray space. |
| `CellHtml.MarkupColumnDefault` | ux/grid/Printer.js:163-177 | The exact cell `renderColumn` produces from its default metadata. |
| `CellHtml.MarkupLength` | ux/grid/Printer.js:402-416 | Each optional property adds its own text plus its fixed wrapping only when it is set. |
| `CellHtml.MarkupUndefinedIsNbsp` | ux/grid/Printer.js:400 | An `undefined` value and the literal text `&nbsp;` print identically. |
| `Features.ViewFeatures` | ux/grid/Printer.js:452-459 | `view.features` wins whenever it is set (an empty array is truthy), then `featuresMC`, then `normalView.featuresMC`, which may itself be unset (no list). Reading the list fails iff neither of the first two is set and there is no `normalView`. |
| `Features.Serves` | ux/grid/Printer.js:463-471 | A `grouping` request matches `grouping` or `groupingsummary`. A `groupingsummary` request matches only `groupingsummary`, a `summary` request only `summary`, and any other request nothing. |
| `Features.FirstServing` | ux/grid/Printer.js:461-474 | The result is a serving feature with no serving feature before it. The result is `undefined` iff no feature serves the request. |
| `Features.FindFeature` | ux/grid/Printer.js:461-474 | The search loop with early return answers `FirstServing`. |
| `Features.Lookup` | ux/grid/Printer.js:449-475 | `getFeature` fails with the list lookup, is `undefined` when the view has no list, and otherwise is the first serving feature. |
| `Features.GetFeature` | ux/grid/Printer.js:449-475 | The method answers `Lookup`. |
| `Features.GroupingFindsGroupingSummary` | ux/grid/Printer.js:463-467 | If a grouping request finds a grouping summary, a grouping-summary request finds the same feature. |
| `Features.GroupingSummaryImpliesGrouping` | ux/grid/Printer.js:463-467 | A list that answers a grouping-summary request also answers a grouping request: with an earlier plain grouping feature, or with the same feature. |
| `Summaries.Dispatch` | ux/grid/Printer.js:375-394 | The shared `if (type)` block answers exactly when the type is set. A function or a non-empty string counts as set. |
| `Summaries.GetSummary` | ux/grid/Printer.js:374-396 | An unset type gives `null`. A function goes to `store.aggregate` with `[field]`. A reducer name calls that reducer with this field and mode. An unknown name gives `{}` when grouped, else `''`. |
| `Summaries.GetGroupSummary` | ux/grid/Printer.js:722-743 | The same as above, except that an unset type gives `undefined`. |
| `Summaries.CopiesAgree` | ux/grid/Printer.js:722-743 | The two copies of `getSummary` agree exactly when the type is set. |
| `Summaries.DispatchCalls` | ux/grid/Printer.js:376-393 | A store reducer is called iff the type is a function or one of the five reducer names. |
| `Summaries.MinOf` | ux/grid/Printer.js:383-384 | `min` is `undefined` iff there are no records. Otherwise it is a value of the field and no greater than any of them. |
| `Summaries.MaxOf` | ux/grid/Printer.js:385-386 | `max` is `undefined` iff there are no records. Otherwise it is a value of the field and no smaller than any of them. |
| `Summaries.SumOf` | ux/grid/Printer.js:387-388 | `store.sum` over the field values: a single record's sum is its value, and the sum of non-negative values is non-negative. |
| `Summaries.SumOfAppend` | ux/grid/Printer.js:387-388 | The sum is additive over the records. |
| `Summaries.SumBounds` | ux/grid/Printer.js:381-388 | count × min ≤ sum ≤ count × max. |
| `Summaries.Reduce` | ux/grid/Printer.js:381-390 | Ungrouped results of the store call: count is the number of records, sum is `SumOf`, and min/max are `undefined` only for no records. Average and custom aggregates are not modelled. |
| `RawData.GetSummaryRcd` | ux/grid/Printer.js:746-755 | On an array: the first row whose field is truthy and `==` the value, else `undefined`. On an object: the object itself iff `data[fieldName]` is truthy, and a `TypeError` without `data`. |
| `RawData.NoRowForEmptyValue` | ux/grid/Printer.js:749 | An `undefined`, `null` or `''` group value never finds a row. |
| `RawData.ZeroFindsStringZero` | ux/grid/Printer.js:749 | The comparison is the loose `==`: the value `0` matches a row holding `"0"`. |
| `RawData.FalsyKeyNotFound` | ux/grid/Printer.js:749 | A row whose field is falsy is never found, whatever the group value, because the truthiness test comes first. This holds even for a field `0` and the value `0`, which are `==`. |
| `Js.LooseEqualsProperties` | ux/grid/Printer.js:749 | `==` is symmetric and reflexive, and on two strings or two numbers it is `===`. |
| `Js.NumericStrings` | ux/grid/Printer.js:749 | For every string: it `==` a number iff it converts to that number. A digit string `==` its value, a `-` followed by digits `==` the negated value, and a string that converts to no number `==` no number. |
| `Js.NumericStringExamples` | ux/grid/Printer.js:749 | Three instances: `"42" == 42`, `"-7" == -7` and `"abc" != 0`. |
| `Js.OtherCoercions` | ux/grid/Printer.js:749 | `'' == 0`, `true == "1"`, `null == undefined` and `null != 0`. |
| `TreeRecords.Visit` | ux/grid/Printer.js:426-429 | The callback pushes the node unless it is the root of a grid that hides its root, or is invisible. |
| `TreeRecords.Cascade` | ux/grid/Printer.js:426-430 | Walking a subtree below the root appends exactly its visible nodes, in pre-order. |
| `TreeRecords.CollectRecords` | ux/grid/Printer.js:424-430 | The walk yields `Records(root, rootVisible)`: the root when shown and visible, then every visible node below it, in pre-order. |
| `TreeRecords.RecordsAreVisiblePreOrder` | ux/grid/Printer.js:426-430 | The records are the visible nodes of the whole pre-order, less the root when `rootVisible` is false. |
| `TreeRecords.VisibleMembers` | ux/grid/Printer.js:428-429 | A node is among the kept nodes iff it is in the list and visible. |
| `TreeRecords.HiddenParentKeepsChild` | ux/grid/Printer.js:427-428 | Skipping a node does not prune the walk below it: the callback never returns `false`, so a node that is itself visible is printed whatever its parent's visibility. |
| `Printer.PrintLayout` | ux/grid/Printer.js:18-69 | Only a grouped store looks up features, so only it can fail. Grouped mode holds iff the store is grouped and a feature serving `grouping` exists, and that feature supplies the group field. The columns are the filter of the flattened or visible columns. |
| `Printer.PrintColumns` | ux/grid/Printer.js:18-69 | The step-by-step `print` prologue answers `PrintLayout`. |
| `Printer.SourceColumns` | ux/grid/Printer.js:31-45 | With a column manager, the visible grid columns as given, nulls included. Without one, the flattened grid columns, with no null entry and nothing that flattening does not yield. |
| `Printer.FlattenKeepsEntries` | ux/grid/Printer.js:38-43 | Nothing is lost in flattening: every plain column, and every child of a grouped header, is in the flattened list. |
| `Printer.SourceColumnsCover` | ux/grid/Printer.js:35-45 | Without a column manager, the filter sees every plain grid column and every child of a grouped header. |
| `Printer.PrintsChildOfHeader` | ux/grid/Printer.js:31-56 | Without a column manager and with an ungrouped store, a visible data column under a grouped header is printed unchanged. |

## Left out

- XTemplate markup and its application (header, body, group and summary templates, `<tpl for>`, `applyTpl`, `applyGroupTpl`), and the HTML document boilerplate. They are template-engine strings whose meaning lives in the framework.
- `window.open` and `document.write`: browser I/O.
- The stylesheet path from `Ext.Loader.getPath`: a framework call.
- Renderers: `renderer`, `summaryRenderer`, `tpl.apply` and their calling conventions. They are opaque callbacks. A cell is modelled from the value and from the metadata a renderer leaves behind.
- `renderColumn`, `renderSummary`, `getSummaryObject` and `getSummaryRecord42`. Of these, only the default metadata (`ColumnMeta`) and `getHtml` are modelled. These functions mostly choose which callback to call.
- Remote summaries: the reader's raw data, the summary record model and `Ext.create`. They depend on store and proxy internals. `getSummaryRcd` itself is modelled.
- The `Ext.getVersion()` branches and the 5.x `GroupCollection` conversion: compatibility glue.
- `generateBody`'s grouping set-up (hiding the group field, the group column) and the row-expander plugin scan: template inputs.
- The `average` reducer (floating-point division) and custom `store.aggregate` functions: `Reduce` answers `NotModelled` for them.
- The grouped-mode results of the reducers (objects keyed by group name): `Reduce` covers ungrouped mode only.
- Columns.ClearColumns: the source changes `column.text` in place on the grid's own column object, so the grid's configuration also shows `Row` afterwards. The model returns the renamed column as a new value, so that aliasing is not captured. Repeated entries are printed the same either way.
- Columns.FlattenColumns: a `null` entry in `grid.columns` would make the source throw on `c.items`. The model's grid columns are never null. The column manager's list may hold nulls, and those are dropped by the filter.
- Columns.Keeps: `dataIndex` and the group field are `Option<string>`, so `undefined` and `null` are one value (`None`). The grouped branch compares them with `===`, which tells the two apart. So a column with `dataIndex: null` in grouped mode with an unset (`undefined`) group field is kept by the source but dropped by the model.
- Js.LooseEquals: numbers are integers. A string converts to a number only when it is empty or an optional sign followed by decimal digits. Whitespace, fractions, exponents, hex, NaN edge cases and `Infinity` are not modelled. `JsValue` keeps `null` and `undefined` apart, and `==` identifies them as JavaScript does.
- RawData.GetSummaryRcd: array elements are objects. A `null` element, which would make the source throw, is not modelled.
- CellHtml.GetHtml: the value arrives as its text form. JavaScript's formatting of numbers, `null` and objects inside the template literal is not modelled, and neither is an `undefined` `align`, which the source prints as the word `undefined`.
- TreeRecords: `isVisible()` and `isRoot()` are framework methods. Visibility is a flag on each node, and the root is the node the walk starts from.
