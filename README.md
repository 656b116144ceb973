# Contract renderer, modelled in Dafny

This project models the contract renderer in `contract-ui/src/Renderer.js`. The
renderer walks the JSON document tree that the contract editor produces and turns it
into React elements. The model covers all of it:

- **Mark inheritance.** A node's `bold`/`underline` flags are added to the marks it
  inherits, and the result is passed down to its children.
- **Clause numbering.** Three module-level variables are shared by the whole pass:
  `clauseCounter`, `definitionSubCounter` and `insideDefinitions`.
  - A regular clause takes the next clause number.
  - A clause met inside the definitions section whose title mentions "definition"
    takes the next sub-number instead.
  - A clause titled "Definitions" switches the section on and restarts the
    sub-counter.
- **Paragraph handling.** The "p"/"block" branch does three things:
  - it replaces nested text paragraphs by bare text leaves;
  - it wraps the children in a `div` when one of them is block-level, and in a `p`
    otherwise;
  - it renders the "Agreement to Provide Services" section one level deep. Each
    child becomes a span classed by its own flags, and only mentions render their
    children.
- **The Parties handler.** It scans the party paragraph into party names, quoted
  role labels and the rest, then emits numbered party lines. This handler is
  unreachable: the "p"/"block" test comes first and already takes every "block"
  node. The model proves this and also models the handler on its own.
- **Headings, lists and text.**
  - An `h4` renders its first child under the heading's marks, and the other
    children under no marks at all.
  - `h1`, `ul`, `li` and `lic` wrap their children.
  - A text leaf becomes one span, or one trimmed span per line with a break
    between lines.
  - Any other node renders as nothing.
- **`renderChildren` and the root call.**

The model has two layers:

- A **pure description** (module `Render`). It states what `renderNode` returns for a
  node, the inherited marks and the counters before the call, together with the
  counters after the call.
- An **imperative renderer** (module `Renderer`). It keeps the three counters as
  fields of a `NumberingState` object, updates them in place, and follows the
  source's `if` chain and loops. Each of its methods is proved to return exactly
  what the description says and to leave the counters where the description leaves
  them.

Properties of the description are proved in `RenderProperties`:

- the labels handed out by a pass are those of numbering its clauses in walk order;
- from freshly loaded counters, regular clauses are numbered 1, 2, 3, …, and
  sub-definition labels appear only after a "Definitions" clause;
- inherited marks reach every text span except in the places that deliberately
  drop them;
- a text leaf with k − 1 newlines renders as k trimmed lines with k − 1 breaks.

Files:

| file | contents |
|---|---|
| `doc.dfy` | the input tree (`Node`, `Children`) and its size measure |
| `strings.dfy` | `toLowerCase` on ASCII, `includes`, `trim`, `split` |
| `marks.dfy` | marks and their inheritance |
| `numbering.dfy` | the counters, one clause's step, runs of clauses, the `NumberingState` class |
| `paragraph.dfy` | the clean-up loop, the block-child test, the Agreement title test |
| `parties.dfy` | the first party paragraph, the quote test, the party scan |
| `render.dfy` | the output datatypes, the branch choice, the pure description of rendering |
| `render_props.dfy` | numbering, mark and text-line properties of the description |
| `renderer.dfy` | the imperative renderer, proved equal to the description |

Three behaviours of the code are easy to misread:

- A sub-definition's `index` is the integer value of `definitionSubCounter`. The
  comment on the counters (contract-ui/src/Renderer.js:7) speaks of lettering
  "(a), (b), (c)", but no conversion to a letter happens in `Renderer.js`, and the
  `Clause` component prints `{index}.` (contract-ui/src/Clause.js:6). The model keeps
  the integer.
- Text spans are classed by the marks *including the node's own flags*:
  `renderNode` derives `marks` (lines 45-47) before it reaches the text branch.
- A "Definitions" clause met while already inside the section is itself a
  sub-definition: its title includes "definition". It gets sub-label 1, because
  the reset happens before its label is taken.

## Model

| member | source | states |
|---|---|---|
| `MarkContext.Derive` | contract-ui/src/Renderer.js:45-47 | the derived marks keep every inherited flag and add the node's own flags; a flag is set only if the parent or the node sets it |
| `Strings.Lower` | contract-ui/src/Renderer.js:61 | `toLowerCase` keeps the length, lowers each ASCII capital and leaves no capital behind |
| `Strings.ContainsAt` | contract-ui/src/Renderer.js:62 | `includes` holds whenever the substring occurs at some position |
| `Strings.OccurrenceIndex` | contract-ui/src/Renderer.js:62 | when `includes` holds, the substring occurs at the position it returns |
| `Strings.ContainsIffOccurs` | contract-ui/src/Renderer.js:62 | `Strings.Contains` (`includes`) holds iff the substring occurs at some position |
| `Strings.LowerIdempotent` | contract-ui/src/Renderer.js:61-62 | lowering a lowered title changes nothing |
| `Strings.Trim` | contract-ui/src/Renderer.js:268 | `trim` returns a slice of the line that drops only white space at the two ends and starts and ends with non-space characters |
| `Strings.Split` | contract-ui/src/Renderer.js:264 | `split("\n")` gives one more piece than there are newlines; no piece holds a newline; joining the pieces with newlines gives the text back |
| `Numbering.DefinitionsMentionsDefinition` | contract-ui/src/Renderer.js:61-62 | a clause titled "Definitions" also passes the sub-definition title test |
| `Numbering.TitleTestsIgnoreCase` | contract-ui/src/Renderer.js:61-62 | the two title tests (`IsDefinitionsTitle`, `MentionsDefinition`) ignore letter case; the second holds iff "definition" occurs in the lowered title; a clause without a title passes neither |
| `Numbering.ClauseStep` | contract-ui/src/Renderer.js:59-71 | a clause is a sub-definition iff the pass is inside the definitions section and its title mentions "definition". A sub-definition takes the sub-counter (1 right after a reset) and moves only that counter. Any other clause takes the clause counter, which then advances by one. A "Definitions" title switches the section on and restarts the sub-counter |
| `Numbering.RunClauses` | contract-ui/src/Renderer.js:9-11 | a run over a sequence of clauses hands out one label per clause |
| `Numbering.RunAppend` | contract-ui/src/Renderer.js:9-11 | the counters are shared across the pass: numbering `a + b` is numbering `a`, then numbering `b` from where `a` left the counters |
| `Numbering.RegularConsecutive` | contract-ui/src/Renderer.js:71 | regular clauses get consecutive numbers from the clause counter, and the counter ends one past the last number |
| `Numbering.NoSubNumberBeforeDefinitions` | contract-ui/src/Renderer.js:62 | starting outside the section, a clause gets a sub-definition label only if an earlier clause is titled "Definitions" |
| `Numbering.SubNumberingInsideDefinitions` | contract-ui/src/Renderer.js:62-71 | inside the section, with no further "Definitions" clause, exactly the clauses whose title mentions "definition" are sub-definitions; their labels are consecutive from the sub-counter; the section stays on |
| `Numbering.EnteringDefinitions` | contract-ui/src/Renderer.js:65-71 | a "Definitions" clause met outside the section takes a regular number; the clauses after it that mention "definition" are then numbered 1, 2, 3, … |
| `Numbering.NumberingState.constructor` | contract-ui/src/Renderer.js:9-11 | the three variables start at 1, 1 and false |
| `Numbering.NumberingState.EnterClause` | contract-ui/src/Renderer.js:59-71 | updating the three variables in place gives the label and counters that `ClauseStep` describes |
| `Paragraph.Flattened` | contract-ui/src/Renderer.js:89-95 | the clean-up keeps length and order; a child of type "p" with a non-empty text becomes the bare leaf `{ text }` (no type, title, colour, flags or children, via `Doc.TextLeaf`); every other child stays as it is |
| `Paragraph.FlattenChildren` | contract-ui/src/Renderer.js:89-95 | the in-place loop over a copied array computes `Flattened` |
| `Paragraph.HasBlockChild` | contract-ui/src/Renderer.js:101-103 | true iff some child has type h1, h4, ul, ol or clause |
| `Paragraph.FlattenKeepsBlockChild` | contract-ui/src/Renderer.js:89-103 | the clean-up never changes the `div`-or-`p` decision |
| `Paragraph.AgreementTitleIgnoresCase` | contract-ui/src/Renderer.js:98 | the Agreement title test (`IsAgreementTitle`) ignores letter case, and a node without a title is never the Agreement section |
| `Parties.ParagraphIndex` | contract-ui/src/Renderer.js:173 | the position `find` stops at: a paragraph child, or the end of the list |
| `Parties.FirstParagraph` | contract-ui/src/Renderer.js:173 | `find` returns only a child of type "p" |
| `Parties.FirstParagraphFinds` | contract-ui/src/Renderer.js:173-174 | `find` gives nothing iff no child is a paragraph; otherwise it gives a paragraph child with no paragraph before it |
| `Parties.RegexIsTwoQuotes` | contract-ui/src/Renderer.js:192 | `/"[^"]*"/` matches a text iff the text holds at least two double quotes |
| `Parties.FirstRun` | contract-ui/src/Renderer.js:192 | two double quotes always enclose a quote-free run from the first quote to the next one, so the regular expression matches |
| `Parties.RunGivesTwoQuotes` | contract-ui/src/Renderer.js:192 | a match of the regular expression means the text holds two double quotes |
| `Parties.PrefixLen` | contract-ui/src/Renderer.js:182-200 | the scan collects exactly up to the first child that is neither a mention nor a quoted text |
| `Parties.ScanParties` | contract-ui/src/Renderer.js:177-201 | the `forEach` loop files the mentions of the collected prefix as party names and the other prefix children as labels, in order; every child from the first non-collectable one on goes to `rest` |
| `Parties.SplitSizes` | contract-ui/src/Renderer.js:185-201 | mentions plus labels are as many as the collected children |
| `Parties.SplitBags` | contract-ui/src/Renderer.js:185-201 | mentions and labels together hold the collected children, each once |
| `Parties.SplitKinds` | contract-ui/src/Renderer.js:186-195 | the names are all mentions, and the labels are all non-mentions |
| `Parties.OthersAreCollected` | contract-ui/src/Renderer.js:189-195 | within the collected prefix, every non-mention is a quoted text |
| `Parties.ScanPartition` | contract-ui/src/Renderer.js:185-219 | every child lands in exactly one of the three lists, and `slice(mentions.length + labels.length)` is exactly `rest` |
| `Parties.ScanKinds` | contract-ui/src/Renderer.js:186-195 | names are mentions; labels are quoted texts that are not mentions |
| `Parties.RestStartsAtFirstOther` | contract-ui/src/Renderer.js:196-199 | `rest` starts at the first child that is neither a mention nor a quoted text |
| `Render.Dispatch` | contract-ui/src/Renderer.js:86-171 | every "p" or "block" node, and only those, takes the paragraph branch, so no node ever reaches the Parties handler |
| `Render.DispatchText` | contract-ui/src/Renderer.js:257 | a node reaches the text branch iff its type has no branch of its own (for instance "ol") and its text is a non-empty string |
| `Render.WrapperBlock` | contract-ui/src/Renderer.js:50-254 | the element `WrapperOutput` builds: a mention branch gives a mention element carrying the node's `color`, h1 an `h1`, ul a `ul`, li an `li`, lic a `lic`, and each holds the rendered children unchanged |
| `Render.ChildrenOutput` | contract-ui/src/Renderer.js:29-31 | `null` iff `children` is absent, otherwise one output per child |
| `Render.ListOutput` | contract-ui/src/Renderer.js:31 | `map` gives one output per child |
| `Render.AgreementOutput` | contract-ui/src/Renderer.js:110-158 | the Agreement `map` gives one span per child, classed by that child's own `bold`/`underline` only; it is a highlighted span exactly for mentions; any other child becomes a span holding its own `text` |
| `Render.AgreementItem` | contract-ui/src/Renderer.js:112-129 | one Agreement child becomes a span classed by its own flags only; a mention becomes a span with background `color` around its rendered children; any other child becomes a span holding its own `text`, is not rendered recursively and leaves the counters as they were |
| `Render.PartiesOutput` | contract-ui/src/Renderer.js:171-227 | `null` iff there is no paragraph child, with the counters untouched; otherwise a `div` with one line per party name followed by one output per remaining child |
| `RenderProperties.NodeNumbering` | contract-ui/src/Renderer.js:43-280 | for `Render.NodeOutput`, the pure `renderNode`: rendering a node hands out exactly the labels that numbering its clauses in walk order would hand out, and leaves the counters as that numbering does |
| `RenderProperties.CountersIgnoreMarks` | contract-ui/src/Renderer.js:45-71 | the marks a node inherits never change where it leaves the counters |
| `RenderProperties.ClauseNumbering` | contract-ui/src/Renderer.js:59-81 | for `Render.ClauseOutput`: a clause is labelled by `ClauseStep` before its children render, and its children are numbered from the counters that step left |
| `RenderProperties.ParagraphNumbering` | contract-ui/src/Renderer.js:106-167 | a paragraph numbers the clauses of its cleaned-up children; in the Agreement section it numbers only the clauses inside mentions |
| `RenderProperties.ParagraphWrapper` | contract-ui/src/Renderer.js:101-167 | for `Render.ParagraphOutput`: the wrapper is a `div` iff one of the node's own children is h1, h4, ul, ol or clause, and a `p` otherwise, in both the Agreement and the default case; it holds one output per child |
| `RenderProperties.HeadingNumbering` | contract-ui/src/Renderer.js:233-249 | for `Render.HeadingOutput`: an `h4` numbers the clauses of its title child, then those of its description |
| `RenderProperties.HeadingDescriptionIgnoresMarks` | contract-ui/src/Renderer.js:233-249 | the `h4` exception: the description part, and the counters after the heading, are the same whatever marks the heading inherits |
| `RenderProperties.ListNumbering` | contract-ui/src/Renderer.js:31 | siblings are numbered left to right, each from the counters its elder siblings left |
| `RenderProperties.AgreementNumbering` | contract-ui/src/Renderer.js:110-131 | the Agreement `map` numbers the clauses under its mentions, in order |
| `RenderProperties.AgreementWithoutMentions` | contract-ui/src/Renderer.js:110-158 | an Agreement section without mentions renders the same under any inherited marks and leaves the counters as they were |
| `RenderProperties.FreshPassNumbering` | contract-ui/src/Renderer.js:283 | a pass from freshly loaded counters numbers regular clauses 1, 2, 3, … in walk order, and gives a sub-definition label only after a "Definitions" clause |
| `RenderProperties.NodeKeepsMarks` | contract-ui/src/Renderer.js:43-280 | for `Render.NodeOutput`: every flag the caller passes down is set on every text span below, except the `h4` description, the Agreement spans and the party lines |
| `RenderProperties.H4KeepsMarks` | contract-ui/src/Renderer.js:240 | the heading's title part keeps the inherited marks |
| `RenderProperties.ItemKeepsMarks` | contract-ui/src/Renderer.js:117-121 | the children of an Agreement mention render under the section's marks |
| `RenderProperties.TextLeafRendering` | contract-ui/src/Renderer.js:257-276 | a text with k − 1 > 0 newlines renders as k lines, each the trimmed piece under the derived marks, with k − 1 breaks and none after the last. A text without a newline renders as one untrimmed span. An empty text renders as nothing. The counters are untouched |
| `RenderProperties.TextOutputLines` | contract-ui/src/Renderer.js:264-275 | for `Render.TextOutput`, the text branch on its own: k pieces give k trimmed lines under the given marks with a break after all but the last; a single piece gives one untrimmed span |
| `RenderProperties.TextLinesBreaks` | contract-ui/src/Renderer.js:269 | there is a break after every line but the last |
| `Renderer.RenderNode` | contract-ui/src/Renderer.js:43-280 | the `if` chain returns `NodeOutput` and leaves the counters where it says |
| `Renderer.RenderText` | contract-ui/src/Renderer.js:257-276 | the text branch returns the text output |
| `Renderer.RenderWrapper` | contract-ui/src/Renderer.js:50-56 | the mention, h1, ul, li and lic branches return their element around the rendered children |
| `Renderer.RenderClause` | contract-ui/src/Renderer.js:59-82 | the clause branch moves the counters as `ClauseStep` says, then renders the children |
| `Renderer.RenderParagraph` | contract-ui/src/Renderer.js:86-167 | the paragraph branch returns `ParagraphOutput` |
| `Renderer.RenderHeading` | contract-ui/src/Renderer.js:233-249 | the `h4` branch returns `HeadingOutput` |
| `Renderer.RenderChildren` | contract-ui/src/Renderer.js:29-32 | `renderChildren` returns `ChildrenOutput` |
| `Renderer.RenderEach` | contract-ui/src/Renderer.js:31 | the `map` loop returns `ListOutput` |
| `Renderer.RenderAgreement` | contract-ui/src/Renderer.js:110-158 | the Agreement loop returns `AgreementOutput`: one span per child classed by the child's own flags, a highlighted span exactly for mentions |
| `Renderer.RenderAgreementItem` | contract-ui/src/Renderer.js:112-129 | one Agreement child returns `AgreementItem`: a span classed by the child's own flags; a non-mention keeps the counters |
| `Renderer.RenderParties` | contract-ui/src/Renderer.js:171-227 | the Parties handler returns `PartiesOutput` |
| `Renderer.PartiesShape` | contract-ui/src/Renderer.js:204-225 | with a party paragraph, the output is the party lines followed by the rendered rest, and the rest starts right after the names and labels |
| `Renderer.RenderDocument` | contract-ui/src/Renderer.js:283 | the root call returns a `div` around the outputs of the top-level nodes |

## Left out

- React elements are modelled as the `Out`/`Block` datatypes. Keys, the class strings
  (" bold underline") and inline styles are left out; class strings become the
  `Marks` they are built from.
- The `Mention` and `Clause` components are not part of this model (`Mention.js` is
  not among the files modelled). Their elements appear only with the properties the
  renderer passes them; `Clause` prints `{index}.` and ignores `isDefinition`.
- JSON values the model does not represent:
  - a `children` field that is present but not an array;
  - array entries that are not objects;
  - a `type`, `title` or `text` that is not a string.
  For `node.children` the model distinguishes only "absent" from "an array".
- `toLowerCase` is modelled on ASCII letters only; other Unicode case mappings are
  not.
- The regular expression `/"[^"]*"/` is modelled by a count of double quotes. The
  two are proved equivalent (`Parties.RegexIsTwoQuotes`).
- Renderer.RenderNode: an `h4` without children makes the source call
  `renderNode(undefined)`, which throws. The model turns that case into the
  precondition `NoThrow`, which requires a first child for every `h4` that
  rendering reaches. Exceptions themselves are not modelled.
- Renderer.RenderParties: a party paragraph without a `children` array makes the
  source throw in `forEach`. The model turns that case into the precondition
  `PartiesNoThrow`.
- The module-level counters are never reset between passes. The model covers a pass
  from any counter values. The "numbered from 1" claim
  (`RenderProperties.FreshPassNumbering`) is stated only for the first pass after
  loading.
- Render.TextOutput carries no contract of its own. Its behaviour is stated by
  `RenderProperties.TextOutputLines` and `RenderProperties.TextLeafRendering`.
- The Parties handler is unreachable from `renderNode`. Its branch in the pure
  description is dead (`assert false`), so it is modelled and proved on its own
  (`Renderer.RenderParties`, `Render.PartiesOutput`).
- `App.js` and the rest of the application (data loading, styling) are not part of
  this model.
