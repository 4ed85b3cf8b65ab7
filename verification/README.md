# Border layout of lipgloss, modelled in Dafny

This project models the border engine of the lipgloss terminal-styling
library (`borders.go`). The engine draws a box around a block of text:

- Border sizes: each edge's size is the widest rune among its corners and fill.
- Normalisation: the border is adjusted for the sides that are drawn. Empty
  side glyphs and corners that must be drawn become a space. Corners of
  sides that are not drawn are removed. Every corner is cut to one rune.
- Plain horizontal edge: a corner, the fill runes cycled until the edge
  width is reached, then the other corner.
- Decorated horizontal edge: up to three texts (left, centre, right) are laid
  into the fill.
- Width allocation: `truncateWidths` squeezes three decoration widths into
  the length of an edge.
- Vertical edge: one glyph per content row, with up to three decorations
  (top, centre, bottom) laid over the rows and an optional per-row
  transformer.
- Styled-string segmentation: `splitStyledString` cuts a decoration into one
  unit per row. Each unit keeps the escape sequences that wrap the text.
- Assembly: `applyBorder` writes the top edge, one row per content line
  between the side pieces, and the bottom edge.

## How the model represents the program

- Terminal text is a sequence of tokens: `Glyph(Rune(ch, w))` is a visible
  rune `w` columns wide, and `Esc(code)` is an escape sequence that takes no
  columns.
- `Width`, `Strip` and `Truncate` model the terminal library's width, strip
  and truncate functions. Each is a concrete definition whose contract
  states what the border code relies on.
- Border glyphs are sequences of runes.
- Colouring (`styleBorder` with a side's colours) is a parameter: one
  painter function per side.
- Go's truncating integer division is `Allocation.GoDiv`. Dafny's `/` is
  Euclidean, so it cannot be used directly.
- Where the code and its test tables disagree (see "## Findings"), the
  affected definitions take a `Reading`. `AsWritten` follows the code as it
  is written and `Intended` follows what the tests expect. With
  `AsWritten`, `Assembly.ApplyBorder` is the source's applyBorder: decorated
  edges come from `Horizontal.AnnotatedAsWritten` and side decorations are
  split by `Segmentation.SplitAsWritten`. With `Intended`, it uses
  `Horizontal.AnnotatedEdge` and `Segmentation.SplitStyled`.
- The two places where the code works on bytes have a UTF-8 byte model
  (module `Utf8`):
  - `getFirstRuneAsString`, with the validity rules of Go's
    `utf8.DecodeRuneInString`
  - the byte-length sizing in `splitStyledString`

Modules and the source they follow:

| module | models |
|---|---|
| Text | the terminal text primitives |
| Utf8 | UTF-8 encoding and `getFirstRuneAsString` |
| Geometry | `Border`, the size getters, `maxRuneWidth`, normalisation |
| Decoration | decoration kinds and the text each yields |
| Allocation | `truncateWidths` |
| Segmentation | `splitStyledString` |
| Horizontal | `renderHorizontalEdge`, `renderAnnotatedHorizontalEdge` |
| Vertical | the side columns and `renderVerticalEdge` |
| Assembly | `applyBorder` |
| BorderFunc, Boxes | the test tables of `borders_test.go` |

## Model

| member | source | states |
|---|---|---|
| Geometry.MaxRuneWidth | borders.go:855-870 | the widest rune of a glyph: no rune is wider, some rune is exactly that wide, and an empty glyph measures 0 |
| Geometry.EdgeWidth | borders.go:197-202 | the size of an edge is the largest `maxRuneWidth` among its parts: no part exceeds it, and it is 0 or attained by some part |
| Geometry.EdgeWidthOfThree | borders.go:172-195 | the size of an edge is the maximum of its two corners' and its fill's widest runes |
| Geometry.CustomLeftBorderSizes | borders_test.go:65-70 | a border whose only glyph is a nine-rune left side has horizontal size 1 and vertical size 0: the runes of a side compete for one cell rather than adding up |
| Geometry.SizeFixtures | borders_test.go:9-101 | the standard border is one column on every edge, and an empty glyph is 0 wide |
| Geometry.FirstRune | borders.go:872-878 | the glyph cut to its first rune, empty for an empty glyph |
| Geometry.Normalize | borders.go:458-513 | on a drawn edge there is a corner exactly where the adjacent side is drawn. Every corner is empty or one rune, and a kept corner is its glyph's first rune (a space when empty). Drawn sides get a glyph; undrawn edges only have their corners cut to one rune; the fills and middle glyphs are unchanged |
| Decoration.SlotText | borders.go:745-757 | a string yields itself, a producer yields what it produces, a sized function is called with the edge size and the fill, and a missing slot or a per-row transformer yields nothing |
| Decoration.Transformer | borders.go:688-701 | a transformer exists exactly when some slot holds a per-row function, and it is the last such slot's function |
| Allocation.GoDiv | borders.go:658-672 | Go's quotient: the remainder has the dividend's sign and is smaller than the divisor |
| Allocation.Share | borders.go:648-672 | the closed-form path of the shrink rule: at total s the first share is never above a, and when s is at most a + b the second share s - r is never above b |
| Allocation.ShareFollowsRule | borders.go:648-672 | one step of the shrink rule (take from the larger, from the second on a tie) moves along the closed-form path `Share` from total s to s - 1 |
| Allocation.ShareStart | borders.go:648-672 | the path starts at the given pair |
| Allocation.ShareAfterStep | borders.go:648-672 | after one step of the rule the rest of the path is unchanged |
| Allocation.MeasureDecreases | borders.go:648-672 | every step of every loop decreases the termination measure, which stays non-negative while the loop guard holds |
| Allocation.SettleAt | borders.go:648-672 | the loop stops at the first pair on the path where its guard fails |
| Allocation.Settle | borders.go:648-672 | one loop of truncateWidths, run to its end: the guard fails at the pair it returns |
| Allocation.SettleShrinks | borders.go:648-672 | no loop increases either width |
| Allocation.SettleOnPath | borders.go:648-672 | the loop's result lies on the larger-first path of its starting pair, at a total no larger than the start's |
| Allocation.SettleStopsFirst | borders.go:648-672 | at the loop's result the guard fails, and it held at every point of the path above it |
| Allocation.Allocate | borders.go:635-675 | no allocated width exceeds its requested width capped at the length |
| Allocation.AllocateCentreOnly | borders.go:640-642 | without side decorations the centre is only capped at the length |
| Allocation.AllocateSidesShrinkToFit | borders.go:644-655 | without a centre, touching sides shrink until they leave exactly one free cell, split along the larger-first path |
| Allocation.AllocateCentreBounds | borders.go:658-672 | with a centre, the left width ends before the centre's left bound, the right width before its right bound, and the centre only shrinks |
| Allocation.SettleNonNegative | borders.go:648-672 | on an edge of length two or more, no loop drives a non-negative width below zero |
| Allocation.AllocateNonNegative | borders.go:635-675 | on an edge of length two or more, non-negative widths stay non-negative |
| Allocation.AllocatePlaced | borders.go:635-675 | on an edge of length two or more, the three allocated segments lie inside the edge and do not overlap: left from 0, centre from (n - c) / 2, right ending at n |
| Allocation.AllocateThreeOfTen | borders_test.go:489-494 | (10,10,10) on 10 gives (3,2,3) |
| Allocation.AllocateThreeOfTwelve | borders_test.go:495-500 | (10,10,10) on 12 gives (3,3,4) |
| Allocation.AllocateTwoSides | borders_test.go:501-506 | (10,0,10) on 10 gives (5,0,4) |
| Allocation.AllocateShortRight | borders_test.go:507-512 | (10,0,2) on 10 gives (7,0,2) |
| Allocation.AllocateShortLeft | borders_test.go:513-518 | (2,0,20) on 10 gives (2,0,7) |
| Allocation.AllocateNoRight | borders_test.go:519-524 | (10,10,0) on 10 gives (3,2,0) |
| Allocation.AllocateNoLeft | borders_test.go:525-530 | (0,10,10) on 10 gives (0,3,3) |
| Allocation.AllocateTruncAll | borders_test.go:233-245 | texts of 16, 18 and 20 columns on a 16-column edge get 5, 4 and 5 |
| Allocation.AllocateUnitLength | borders.go:658-672 | on an edge of length one, (0,1,1) becomes (-1,-1,0): the widths go negative |
| Allocation.TruncateWidths | borders.go:635-675 | the loop implementation computes exactly `Allocate` |
| Allocation.ShrinkSides | borders.go:648-654 | the loop computes the stopping point of the sides phase |
| Allocation.ShrinkLeftCentre | borders.go:658-664 | the loop computes the stopping point of the left/centre phase |
| Allocation.ShrinkRightCentre | borders.go:666-672 | the loop computes the stopping point of the right/centre phase |
| Text.Strip | borders.go:886-890 | the visible text: escape-free, no longer, as wide, and equal to the input exactly when the input has no escape sequences |
| Text.Truncate | borders.go:704-707 | text that fits is returned unchanged, and the result is never wider than the limit |
| Text.TruncateVisiblePrefix | borders.go:704-707 | truncation keeps a prefix of the visible runes |
| Text.TruncateAscii | borders_test.go:268-278 | truncating narrow text to n columns keeps its first n characters |
| Utf8.FirstRuneBytes | borders.go:872-878 | the result is a prefix of the string, empty for an empty string and one to four bytes otherwise: the whole opening sequence when the decoder accepts it, only the first byte when it does not |
| Utf8.DecodedSize | borders.go:876 | the size the decoder reports: more than one byte exactly when the opening sequence is accepted (a lead of C2-F4, its second byte in the lead's range, continuation bytes after), and then the length the lead announces |
| Utf8.EncodingAccepted | borders.go:876 | the encoding of every character is decoded as exactly its own length, whatever bytes follow it |
| Utf8.LeadAnnouncesLength | borders.go:876 | the leading byte of a rune's encoding announces that rune's length |
| Utf8.FirstRuneMatchesOld | borders_test.go:103-109 | on every valid UTF-8 string (the encoding of some runes), cutting after the first sequence gives exactly the bytes of the first rune, so it agrees with the rune-slice reference |
| Utf8.FirstRuneInvalid | borders.go:872-878 | on invalid UTF-8 only the first byte is kept: a lead before ASCII, an overlong lead, a lead above F4 and an encoded surrogate, where the rune-slice reference gives the three bytes of U+FFFD |
| Utf8.FirstRuneFixturesAscii | borders_test.go:117-122 | the empty, "A", "Hello" and "Hello世界" cases |
| Utf8.FirstRuneFixtureLong | borders_test.go:126 | the long ASCII sentence gives "T" |
| Utf8.FirstRuneWorld | borders_test.go:119 | "世" gives itself |
| Utf8.FirstRuneNihao | borders_test.go:121 | "你好世界" gives "你" |
| Utf8.FirstRuneWorldHello | borders_test.go:123 | "世界Hello" gives "世" |
| Utf8.FirstRuneSmiley | borders_test.go:124 | the emoji case gives the four-byte emoji |
| Utf8.FirstRuneEnye | borders_test.go:125 | "ñoño" gives the two-byte "ñ" |
| Segmentation.IndexOf | borders.go:895 | strings.Index: the position of the first occurrence, or -1 when there is none |
| Segmentation.Spread | borders.go:907-911 | the units number one per byte of the visible text |
| Segmentation.SpreadEmptySlots | borders.go:907-911 | a unit is empty exactly at the continuation bytes of the visible text |
| Segmentation.SpreadAt | borders.go:907-911 | the unit at the byte offset where a rune starts is that rune between the prefix and the suffix |
| Segmentation.Singles | borders.go:887-890 | unstyled text splits into one unit per rune, in order |
| Segmentation.SuffixAsWrittenEmpty | borders.go:900-905 | as written, the suffix search runs on text that starts with the visible text, so the suffix is always empty |
| Segmentation.SplitAsWritten | borders.go:881-914 | splitStyledString as written: no units for the empty string, one per rune for unstyled text, and one per byte of the visible text for styled text |
| Segmentation.SplitStyled | borders.go:881-914 | splitStyledString as intended: the same shape as written, with the suffix searched for where it is |
| Segmentation.SplitAsWrittenDropsSuffix | borders.go:881-914 | as written, a styled string splits with its prefix and an empty suffix |
| Segmentation.WrappedParts | borders.go:893-905 | for escape sequences around plain runes, the prefix and the intended suffix are exactly those sequences |
| Segmentation.SplitStyledWrapped | borders.go:881-914 | the intended split of wrapped one-byte runes gives one unit per rune, each wrapped in both sequences |
| Segmentation.SplitAsWrittenWrapped | borders.go:881-914 | the split as written gives one unit per rune, each carrying only the opening sequences |
| Segmentation.SplitUnstyled | borders.go:886-890 | both versions split unstyled text into its runes |
| Segmentation.SplitAscii | borders_test.go:558-561 | both versions split narrow ASCII text into its letters; this covers "VERTICAL" |
| Segmentation.SplitEmpty | borders.go:882-884 | the empty string has no units |
| Segmentation.SplitAbc | borders_test.go:550-553 | "abc" gives "a", "b", "c" |
| Segmentation.SplitStyledLetters | borders_test.go:554-557 | three styled one-byte letters split into three units, each with both sequences |
| Segmentation.SplitAsWrittenLetters | borders.go:900-905 | as written, the same three units lose the closing sequence |
| Segmentation.SplitStyledFixture | borders_test.go:554-557 | "\x1b[41mabc\x1b[0m" gives each letter between the red background and the reset |
| Segmentation.SplitAsWrittenFixture | borders_test.go:554-557 | as written, the same input gives units that never reset, which differ from the expected ones |
| Horizontal.ZeroRunDecreases | borders.go:824-831 | when the next rune is zero columns wide, the run of zero-width runes ahead shrinks, so the fill loop terminates |
| Horizontal.FillFrom | borders.go:819-831 | the runes written are the fill glyph's runes cycled from the current position |
| Horizontal.FillStopsAtWidth | borders.go:824-831 | the loop stops as soon as the counter reaches the width. The counter advances by the width of the next rune in the cycle, not the one just written |
| Horizontal.FillUnitCount | borders.go:824-831 | with one-column runes, exactly max(width - i, 0) runes are written |
| Horizontal.HorizontalEdge | borders.go:814-835 | the left corner, then the fill cycled from its first rune (a space when empty), then the right corner |
| Horizontal.HorizontalEdgeWidth | borders.go:814-835 | with a one-column fill the edge is the corners plus max(width, 0) columns |
| Horizontal.Shown | borders.go:784-786 | a text is written only when it has width, so it contributes exactly its width |
| Horizontal.LayWidth | borders.go:778-810 | between its corners a laid-out edge is as wide as its texts and fill pieces together |
| Horizontal.FillPieceWidth | borders.go:776 | the fill piece is the painted first rune of the fill glyph, one column wide |
| Horizontal.AnnotatedAsWritten | borders.go:732-811 | renderAnnotatedHorizontalEdge as written: it opens with the painted left corner and the left text when shown, and closes with the right text when shown and the painted right corner |
| Horizontal.LayFrame | borders.go:778-810 | a laid-out edge opens with its painted left corner and first text and closes with its last text and painted right corner |
| Horizontal.AnnotatedAsWrittenWidth | borders.go:732-811 | as written, the edge between its corners is never narrower than the width. It is exactly that wide if and only if the left text ends by (width - c) / 2 and the right text fits after the centre text; otherwise it is wider |
| Horizontal.OverlapArithmetic | borders.go:789-801 | fill counted from the fixed positions covers the gaps when the texts fit and adds to their overlap when they do not |
| Horizontal.CentreShrinks | borders.go:774 | shrinking the centre text never moves its end to the right |
| Horizontal.GapsFill | borders.go:774-801 | texts within a placed allocation leave gaps that make up the edge width exactly |
| Horizontal.AnnotatedEdge | borders.go:732-811 | renderAnnotatedHorizontalEdge as intended, with widths allocated by truncateWidths and the texts truncated to them: it opens with the painted left corner and closes with the painted right corner |
| Horizontal.AnnotatedEdgeFits | borders.go:732-811 | the intended edge is exactly `width` columns between its corners, whatever its decorations, for an edge of two or more columns |
| Vertical.Copies | borders.go:553-557 | whole copies of the glyph are appended until there are at least n runes |
| Vertical.CopiesAt | borders.go:553-558 | the k-th rune of the copies is the glyph's rune k mod its length |
| Vertical.SideColumn | borders.go:552-561 | one piece per row: the glyph's runes in turn, starting again from the first |
| Vertical.Overwrite | borders.go:711-717 | Go's copy into edge[at:]: the rows from `at` take as many units as fit, and all other rows are unchanged |
| Vertical.Decorate | borders.go:710-718 | the three decorations, already split into one unit per row, copied over the side in order, a later copy winning: a row in the bottom range (from h - last) shows the bottom unit, else a row in the centre range (from (h - centre) / 2) the centre unit, else a row in the top range (from 0) the top unit, and any other row keeps its glyph; a range is used only when its width is positive |
| Vertical.Transform | borders.go:720-727 | every row passes through the transformer and is cut back to its former width. No row grows wider, and a result that fits is kept as is |
| Vertical.VerticalEdge | borders.go:677-730 | renderVerticalEdge, its decorations split as written or as intended: as many rows as the side, none wider than the laid-out side's row |
| Vertical.DecorateKeepsUncovered | borders.go:710-718 | a row that no decoration reaches keeps its glyph |
| Vertical.DecorateLastWins | borders.go:716-718 | the bottom decoration is drawn over everything else in the rows it occupies |
| Vertical.DecorateFirstAlone | borders.go:710-712 | a top decoration alone shows its units in the top rows |
| Vertical.VerticalEdgeUndecorated | borders.go:677-730 | with no decorations the side is left as it is |
| Vertical.VerticalEdgeTransformNarrows | borders.go:720-727 | the transformer never widens a row; without one the side is the laid-out side |
| Vertical.VerticalEdgeLetters | borders.go:677-730 | in either reading, an ASCII string alone in the first slot puts one letter in each top row, and every other row keeps its glyph |
| Assembly.SplitLines | borders.go:456 | the content split at line breaks: at least one line, none containing a break |
| Assembly.JoinSplit | borders.go:456 | joining the lines gives the content back |
| Assembly.SplitJoin | borders.go:593-605 | splitting joined break-free lines gives the lines back |
| Assembly.MaxWidth | borders.go:456 | the content width: no line is wider and some line is exactly that wide |
| Assembly.Block | borders.go:515-628 | the block has one line per content line, plus one for each drawn horizontal edge |
| Assembly.EdgeText | borders.go:519-539 | a horizontal edge, decorated when it has decorations: a decorated edge opens and closes with its painted corners |
| Assembly.Column | borders.go:552-590 | a side column of n rows: the side glyph's runes in turn when undecorated, otherwise laid out by renderVerticalEdge |
| Assembly.AssembledJoinsBlock | borders.go:515-630 | what applyBorder writes (top edge and break, rows separated by breaks, break and bottom edge) is the block's lines joined by breaks |
| Assembly.NormalizeReady | borders.go:458-467 | after normalisation every drawn side has a glyph, and the fill loops still advance |
| Assembly.ApplyBorder | borders.go:418-630 | the content is returned unchanged when there is no border or no drawn side. Otherwise the result is the block of the normalised border over the content's lines, joined by breaks. Read as written, decorated edges and side decorations are drawn as the source draws them; read as intended, as the test tables expect |
| Assembly.EdgeTextWidth | borders.go:515-543 | a horizontal edge of one-column glyphs between one-rune corners is two columns wider than the content when its decorations fit (as written: its texts fit where the loops put them; as intended: the content is two columns or more). As written, an edge whose texts do not fit is wider |
| Assembly.RowWidth | borders.go:593-605 | a row between one-column side pieces is two columns wider than its line |
| Assembly.SideCellWidth | borders.go:552-561 | every piece of a one-column side is one column wide |
| Assembly.RowsWidth | borders.go:593-605 | rows of equally wide lines are all two columns wider |
| Assembly.EdgesWidth | borders.go:515-628 | both edges of a one-column box are two columns wider than the content when their decorations fit, in either reading |
| Assembly.BlockRectangular | borders.go:515-628 | a box drawn on every side with one-column glyphs and one-rune corners, around equally wide lines, with undecorated sides, painters that keep widths and top and bottom decorations that fit, is a rectangle two columns wider than the content, in either reading |
| Assembly.BlockEdgesWidth | borders.go:515-628 | the first and last lines of such a block, its edges, are two columns wider than the content when their decorations fit |
| Assembly.BlockRowsWidth | borders.go:552-605 | the lines between the edges, its rows, are two columns wider than the content |
| Assembly.NormalizeAllSides | borders.go:458-513 | for a box with every side drawn, normalising a one-column border keeps it one column wide, gives every corner one rune and both sides a glyph |
| Assembly.ApplyBorderRectangular | borders.go:418-630 | applyBorder on every side of equally wide lines yields a block of lines + 2 lines joined by breaks, each two columns wider than the content, whenever the edge decorations fit, in either reading |
| Assembly.ApplyBorderBlock | borders.go:418-630 | applyBorder on every side, with a non-empty one-column border, joins a block of the content's lines plus both edges |
| Assembly.NormalizedRectangular | borders.go:458-628 | the block of a normalised one-column border around equally wide lines, whose edge decorations fit, is a rectangle |
| Assembly.ApplyBorderTopOverflows | borders.go:418-630 | as written, a box whose top decorations do not fit where the loops put them is not a rectangle: its first line is wider than the content plus two |
| Assembly.TopOverflows | borders.go:515-543 | as written, a top edge whose decorations do not fit makes the first line of the block wider than the content plus two |
| BorderFunc.DecorKinds | borders.go:745-757 | a string, a producer and a sized function each yield their text in their own slot, and nothing in the other slots |
| BorderFunc.DecorLits | borders.go:745-757 | three strings fill the three slots in order |
| BorderFunc.LeftOnly | borders.go:732-811 | the intended edge: a left text that fits, then fill to the end |
| BorderFunc.LeftOnlyAsWritten | borders.go:789-801 | as written, the fill after a left text of at least half the edge runs from the middle to the end |
| BorderFunc.LeftTooLong | borders.go:732-811 | the intended edge: a left text wider than the edge is cut to the edge |
| BorderFunc.CentreOnly | borders.go:774-801 | a centre text alone starts at (width - c) / 2 |
| BorderFunc.CentreOnlyLaid | borders.go:774-801 | a centre text alone has non-negative fill on each side, the right side at least as long as the left |
| BorderFunc.CentreOnlyAsWritten | borders.go:774-801 | as written, a centre text alone is placed as intended |
| BorderFunc.RightOnly | borders.go:732-811 | the intended edge: fill from the corner, then a right text that fits |
| BorderFunc.RightOnlyAsWritten | borders.go:789-801 | as written, the fill before a right text of at least half the edge runs from the corner to the middle |
| BorderFunc.TopLeftFive | borders_test.go:246-267 | any five-column title in the left slot of a ten-column top edge, of each kind, is followed by five pieces of fill, in both readings |
| BorderFunc.TopLeftTitle | borders_test.go:279-295 | "top left title string", "…stringer" and "top left title" |
| BorderFunc.TopLeftLong | borders_test.go:268-278 | the intended edge: a title longer than the edge is cut to the edge |
| BorderFunc.TopLeftLongTitle | borders_test.go:268-278 | the intended edge: "TitleTitleTitle" on ten columns shows "TitleTitle" |
| BorderFunc.TopLeftLongAsWritten | borders.go:784-801 | as written, a title wider than the edge is written whole and followed by the fill from the middle of the edge to its end |
| BorderFunc.TopLeftLongTitleAsWritten | borders.go:732-811 | "top left very long title stringer" as written: all fifteen columns of the title and five pieces of fill, twenty columns on a ten-column edge |
| BorderFunc.TopCentreFive | borders_test.go:296-329 | a five-column centre title on widths 10 and 11, intended and as written |
| BorderFunc.TopCentreTitle | borders_test.go:296-329 | "top center title" and "top center title even" |
| BorderFunc.TopRightFive | borders_test.go:330-346 | a five-column right title after five pieces of fill |
| BorderFunc.TopRightTitle | borders_test.go:330-346 | "top right title" |
| BorderFunc.BottomLeftSix | borders_test.go:347-363 | a six-column left status: four pieces of fill as intended, five as written |
| BorderFunc.BottomRightSix | borders_test.go:398-414 | a six-column right status: four pieces of fill as intended, five as written |
| BorderFunc.BottomCentreSix | borders_test.go:364-397 | a six-column centre status on widths 10 and 11, intended and as written |
| BorderFunc.BottomStatus | borders_test.go:347-363 | "bottom left title" and "bottom right title", intended and as written |
| BorderFunc.BottomCentreStatus | borders_test.go:364-397 | "bottom center title" and "bottom center title odd" |
| BorderFunc.PaddedWidth | borders_test.go:424-426 | the padded status is two columns wider than the status plus the fill it is handed |
| BorderFunc.BottomRightPaddedSix | borders_test.go:415-431 | the intended edge: a padded six-column status is preceded by three pieces of fill |
| BorderFunc.BottomRightPadded | borders_test.go:415-431 | the intended edge: "bottom right padded title" |
| BorderFunc.BottomRightPaddedSixAsWritten | borders.go:789-801 | as written, the nine-column padded status is preceded by six pieces of fill, from the corner to the middle of the edge |
| BorderFunc.BottomRightPaddedAsWritten | borders.go:732-811 | "bottom right padded title" as written: fifteen columns on a twelve-column edge |
| BorderFunc.TruncAllWidths | borders_test.go:233-245 | the intended edge: texts of 16, 18 and 20 columns on a 16-column top edge are cut to 5, 4 and 5, with one piece of fill on either side of the centre |
| BorderFunc.TruncAll | borders_test.go:233-245 | the intended edge: "trunc all string" |
| BorderFunc.ThreeTextsAsWritten | borders.go:789-801 | as written, three texts too wide to be placed get no fill and are written whole, one after the other |
| BorderFunc.TruncAllAsWritten | borders.go:732-811 | "trunc all string" as written: nothing is cut, and the three texts are written whole on the sixteen-column edge |
| Boxes.DashEdge | borders.go:814-835 | the plain edge with the standard fill is `width` dashes between its corners |
| Boxes.OneLineBox | borders.go:418-630 | a one-line content in a standard box: the top edge, the line between two bars, the bottom edge. Decorated edges are the source's when read as written and the tests' when read as intended |
| Boxes.BlankBox | borders.go:418-630 | an empty content of width n in a standard box, with decorated edges drawn as the chosen reading draws them |
| Boxes.BorderWithWidth | borders_test.go:452-459 | "border with width", the same in both readings |
| Boxes.HelloBox | borders_test.go:460-467 | "HELLO" in a standard box five columns wide, the same in both readings |
| Boxes.TopLeftTitleBox | borders_test.go:246-256 | the whole box of "top left title string": the title fits, so both readings draw it the same |
| Boxes.BottomLeftStatusBox | borders_test.go:347-363 | the whole box of "bottom left title": as written the bottom line has five pieces of fill and is 13 columns wide above 12-column rows; as intended it has four |
| Boxes.StatusBox | borders_test.go:347-363 | the "bottom left title" box in either reading: five pieces of fill after STATUS as written, four as intended |
| Boxes.TruncAllBox | borders_test.go:233-245 | the whole box of "trunc all string": as written the three texts are written whole; as intended they are cut to 5, 4 and 5 columns |
| Boxes.TruncAllBoxAsWritten | borders.go:418-630 | as written, the "trunc all string" box has the three texts whole in its top line |
| Boxes.TruncAllBoxIntended | borders_test.go:233-245 | as intended, the "trunc all string" box has the texts cut to 5, 4 and 5 columns |

## Left out

- Colours and `styleBorder`: each side's styling is a painter parameter. The width facts assume a painter that keeps widths.
- The style getters and `implicitBorders` (borders.go:419-453): the border, the drawn sides and the decorations are parameters.
- `getLines` is not part of this model. `Assembly.SplitLines` and `Assembly.MaxWidth` stand for it.
- Width measurement: the width and grapheme libraries are taken as each rune's `w`. Every rune counts as its own grapheme cluster.
- `Truncate` keeps escape sequences whole. Byte-level cutting inside an escape sequence and the tail argument of the terminal library's truncate are not modelled.
- `strings.Index` inside escape sequences: matching is on whole tokens, not on the bytes of a sequence.
- The border presets other than the standard border (borders.go:365-416) are data only and are not modelled. `NewBorderDecoration` (borders.go:161-167) is not modelled either: a decoration is given directly as a slot.
- Horizontal.HorizontalEdge: the fill loop is modelled only for fills whose runes are not all zero columns wide (`Advancing`). The source loops forever on such a fill.
- Decoration slots: at most three per edge (`|slots| <= 3`). The source indexes fixed arrays of three and panics on a fourth.
- Boxes: the content is given as it reaches `applyBorder`, already padded by the style's width setting (`Boxes.Blank`). Padding is not part of this model.
- Geometry.Normalize: follows the code, not a stricter reading. The corners of an edge that is not drawn are kept and only cut to one rune. For example, the top-left corner survives when the top edge is off and the left side is on.
- Allocation.AllocateNonNegative: stated for lengths of two or more only. At length one the code does produce negative widths, as `Allocation.AllocateUnitLength` shows.
- Assembly.ApplyBorderRectangular: stated for one-column glyphs, undecorated sides, and top and bottom decorations that fit. As written, that means texts that fit where the loops put them. As intended, it means content at least two columns wide. Wider glyphs make edges and rows differ in width. So does a side decoration holding a rune two columns wide, in either reading, which is why the sides are undecorated. As written, a box whose decorations do not fit is not a rectangle, as `Assembly.ApplyBorderTopOverflows` shows.
- FirstRuneMatchesOld: stated for valid UTF-8 only. On invalid bytes the two functions differ: getFirstRuneAsString keeps the single byte, where the rune-slice reference gives U+FFFD, as `Utf8.FirstRuneInvalid` shows.
- Utf8.DecodedSize: the rune value the decoder returns is not modelled, only the size it reports, which is all getFirstRuneAsString uses.

## Findings

| source | as written | input that shows it | evidently intended | confidence | as-written member | corrected member |
|---|---|---|---|---|---|---|
| borders.go:732-811 | the decorated edge never calls `truncateWidths` or truncates anything. Texts are written at full width at fixed positions, so the edge overruns whenever they do not fit | "bottom left title" (borders_test.go:347-363): STATUS at width 10 gives five pieces of fill, not four, making the edge 11 columns. "trunc all string" (borders_test.go:233-245) overruns as well | allocate widths with `truncateWidths`, truncate each text, and fill exactly the columns left, as the tests expect | not executed | Horizontal.AnnotatedAsWrittenWidth | Horizontal.AnnotatedEdgeFits |
| borders.go:900-905 | the suffix is searched for in what is left after the prefix is cut off. That text starts with the visible text, so `strings.Index` returns 0 and the suffix is always empty | "\x1b[41mabc\x1b[0m" (borders_test.go:554-557) gives units "\x1b[41ma" … without the reset | every unit wrapped in the sequences before and after the visible text | not executed | Segmentation.SplitAsWrittenFixture | Segmentation.SplitStyledFixture |

The model defines both versions of each function: `Horizontal.AnnotatedAsWritten` and `Segmentation.SplitAsWritten`, and `Horizontal.AnnotatedEdge` and `Segmentation.SplitStyled`. Assembly and the vertical edge take a `Reading` and use either. Read as written, `Boxes.BottomLeftStatusBox` and `Boxes.TruncAllBox` give the boxes the source draws, and `Assembly.ApplyBorderTopOverflows` shows the source's box is not a rectangle when the texts do not fit. Read as intended, `Assembly.ApplyBorderRectangular` holds for all top and bottom decorations on content two or more columns wide, with undecorated sides and one-column glyphs. `BorderFunc.BottomLeftSix`, `BorderFunc.BottomRightSix` and `BorderFunc.BottomStatus` give both results side by side. Where the texts fit, the two versions of the edge agree: see `BorderFunc.CentreOnlyAsWritten` and `BorderFunc.TopLeftFive`.
