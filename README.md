# ResumeFlow content tree, in Dafny

ResumeFlow is a resume editor. A resume is a tree of sections, items and bullet points. The browser
edits it in two ways. One is a hook backed by local storage (`useResume`). The other is an older
editor that talks to a FastAPI backend. The backend keeps the tree in a global list and serialises
it to LaTeX for the PDF.

This project models:

- every tree edit of both clients, as pure functions over the tree;
- the array reorders the clients do with `splice`, as methods over arrays;
- the preview's visibility filter;
- the backend handlers, as a `Store` class whose methods update a `sections` field in place,
  each method specified by a pure `Handlers` function;
- the Tiptap-JSON to LaTeX compiler, with Python's exception behaviour;
- the LaTeX serialiser, with the template passed in as a string;
- the API URL helpers;
- the backend record defaults.

Modules and files:

| file | module | models |
|---|---|---|
| `wrappers.dfy` | `Wrappers` | `Option` and `Result` |
| `text.dfy` | `Text` | `''.join`, `str.replace` and integer `str`, with their lemmas |
| `json.dfy` | `JsonValue` | JSON values as `json.loads` builds them; dict lookup; Python's `str`/`repr` |
| `models.dfy` | `Models` | the records and defaults of `backend/models.py`; partial item updates |
| `seqs.dfy` | `Seqs` | `filter`, `map`, the splice move and its array implementation, first-match search |
| `tree.dfy` | `Tree` | updating the nodes with a given id at each level; identifier uniqueness |
| `hook.dfy` | `Hook` | the `update` callbacks of `useResume.ts` |
| `editor.dfy` | `Editor` | the state updates of `resume-editor.tsx` |
| `preview.dfy` | `Preview` | `activeContent` of `pdf-preview.tsx` |
| `handlers.dfy` | `Handlers` | each handler of `backend/main.py`: its new list and its reply or HTTP error |
| `store.dfy` | `Backend` | the `Store` class: the same handlers as loops that change the list in place |
| `compile.dfy` | `TiptapCompile` | `backend/compile.py` |
| `latex.dfy` | `LatexOut` | `backend/latex.py` |
| `api.dfy` | `Api` | `resume-editor/src/config/api.ts` |

Conventions:

- The field the source calls `type` is `kind` here.
- Python `None` and JavaScript `null` in a JSON field are `JNull`.
- A Python dict is a list of key/value pairs. Lookups read the first binding.
- Fresh identifiers (`crypto.randomUUID`, `uuid.uuid4`) are parameters.
- The `NEXT_PUBLIC_API_URL` environment value is a parameter.
- The contents of `template.tex` are a parameter.

## Model

| member | source | states |
|---|---|---|
| Models.DefaultBulletPoint | backend/models.py:5-11 | a bullet built from id and text has type "Bullet", html None, json None and status True |
| Models.DefaultItem | backend/models.py:14-26 | an item built from id, title and organization has type "Item", empty dates and location, is visible and expanded, has null rich-text fields and no bullets |
| Models.DefaultSection | backend/models.py:29-36 | a section built from id and title has type "Section", is visible and expanded, has json None and no items |
| Models.DefaultResume | backend/models.py:39-40 | a resume starts with no sections |
| Models.ApplyField | backend/main.py:185-187 | assigning one known field changes that field only; an unknown key changes nothing |
| Models.ApplyFields | backend/main.py:185-187 | the keys of an update are assigned in order; an update whose keys name no field (the `hasattr` guard fails for each) leaves the item unchanged; with ApplyFieldsFrame and ApplyFieldsLastWins, an unnamed field keeps its value and a named one takes its last value |
| Models.ApplyFieldsFrame | resume-editor/src/hooks/useResume.ts:277-279 | a field that no entry of the patch names keeps its value |
| Models.ApplyFieldsLastWins | backend/main.py:185-187 | a field takes the value of the last patch entry that names it |
| Seqs.Move | resume-editor/src/hooks/useResume.ts:321-323 | remove at the drag index and insert at the hover index: the length is kept and the moved element ends at the hover index |
| Seqs.MovePermutes | resume-editor/src/hooks/useResume.ts:321-323 | the splice move is a permutation: the multiset of elements is unchanged |
| Seqs.MoveSelf | resume-editor/src/hooks/useResume.ts:321-323 | moving an element onto its own index changes nothing |
| Seqs.MoveBack | resume-editor/src/hooks/useResume.ts:321-323 | moving from i to j, then from j to i, restores the sequence |
| Seqs.SpliceMove | resume-editor/src/components/resume-editor.tsx:180-182 | the copy-and-splice on an array yields exactly the splice move of the input |
| Seqs.FilterIsSubsequence | resume-editor/src/components/pdf-preview.tsx:11-21 | a filter keeps the relative order of what it keeps |
| Seqs.FilterIdempotent | resume-editor/src/components/pdf-preview.tsx:11-21 | filtering twice by the same predicate is filtering once |
| Seqs.FirstIndex | backend/main.py:89-94 | the index a `for`/`if id ==` loop stops at: the first match, with no match before it, or none when nothing matches |
| Seqs.FilterRemovesOne | resume-editor/src/components/resume-editor.tsx:566 | when exactly one element fails the predicate, filtering removes just that element |
| Hook.AddSection | resume-editor/src/hooks/useResume.ts:21-36 | one section is appended (type "Section", title "New Section", visible, expanded, json null, no items); the old sections are an unchanged prefix |
| Hook.AddSectionIntended | resume-editor/src/hooks/useResume.ts:21-36 | the corrected append: the same section with json the document of "New Section" |
| Hook.AddLaTeX | resume-editor/src/hooks/useResume.ts:39-54 | one section of type "LaTeX" with empty title and no items is appended; the old sections are an unchanged prefix |
| Hook.AddItem | resume-editor/src/hooks/useResume.ts:57-100 | every section with the id gets the default "New Item" item appended; every other section and every other field is unchanged |
| Hook.AddBulletPoint | resume-editor/src/hooks/useResume.ts:103-135 | the matched item of the matched section gets one "New bullet" bullet appended; all else is unchanged |
| Hook.RemoveSection | resume-editor/src/hooks/useResume.ts:138-145 | the result holds exactly the sections whose id differs, each with as many copies as before, and no copy of a section with the id |
| Hook.RemoveItem | resume-editor/src/hooks/useResume.ts:148-161 | in the matched section, exactly the items whose id differs are kept, with all their copies, and none with the id; other sections are unchanged |
| Hook.RemoveBulletPoint | resume-editor/src/hooks/useResume.ts:164-185 | in the matched item, exactly the bullets whose id differs are kept, with all their copies, and none with the id; all else is unchanged |
| Hook.RemoveSectionKeepsOrder | resume-editor/src/hooks/useResume.ts:138-145 | the remaining sections keep their relative order |
| Hook.RemoveItemKeepsOrder | resume-editor/src/hooks/useResume.ts:148-161 | the remaining items keep their relative order |
| Hook.RemoveBulletPointKeepsOrder | resume-editor/src/hooks/useResume.ts:164-185 | the remaining bullets keep their relative order |
| Hook.UpdateLatexContent | resume-editor/src/hooks/useResume.ts:188-197 | the matched section's json becomes the new text; nothing else changes |
| Hook.ToggleSectionStatus | resume-editor/src/hooks/useResume.ts:200-211 | only the matched section's status flips; every other field and section is unchanged |
| Hook.ToggleItemStatus | resume-editor/src/hooks/useResume.ts:214-229 | only the matched item's status flips |
| Hook.ToggleBulletStatus | resume-editor/src/hooks/useResume.ts:232-253 | only the matched bullet's status flips |
| Hook.ToggleSectionStatusTwice | resume-editor/src/hooks/useResume.ts:200-211 | toggling a section twice restores the resume |
| Hook.ToggleItemStatusTwice | resume-editor/src/hooks/useResume.ts:214-229 | toggling an item twice restores the resume |
| Hook.ToggleBulletStatusTwice | resume-editor/src/hooks/useResume.ts:232-253 | toggling a bullet twice restores the resume |
| Hook.UpdateSectionTitle | resume-editor/src/hooks/useResume.ts:256-267 | the matched section gets the new title and json; nothing else changes |
| Hook.UpdateItem | resume-editor/src/hooks/useResume.ts:270-285 | the matched item becomes the item with the patch spread over it; others are unchanged |
| Hook.UpdateBulletText | resume-editor/src/hooks/useResume.ts:288-315 | the matched bullet gets both the new text and the new json; its id, status and other fields are kept |
| Hook.MoveSection | resume-editor/src/hooks/useResume.ts:318-328 | for valid indices, the length and multiset of sections are kept and the dragged section lands at the hover index |
| Hook.MoveItem | resume-editor/src/hooks/useResume.ts:331-344 | the items of the matched section are permuted with the dragged one at the hover index; other sections are unchanged |
| Hook.MoveBulletPoint | resume-editor/src/hooks/useResume.ts:347-371 | the bullets of the matched item are permuted with the dragged one at the hover index; all else is unchanged |
| Hook.MoveSectionSelf | resume-editor/src/hooks/useResume.ts:318-328 | moving a section onto its own index is the identity |
| Hook.MoveSectionBack | resume-editor/src/hooks/useResume.ts:318-328 | moving a section back undoes the move |
| Hook.MoveItemSelf | resume-editor/src/hooks/useResume.ts:331-344 | moving an item onto its own index is the identity |
| Hook.MoveItemBack | resume-editor/src/hooks/useResume.ts:331-344 | moving an item back undoes the move, and the indices stay valid for it |
| Hook.MoveBulletPointSelf | resume-editor/src/hooks/useResume.ts:347-371 | moving a bullet onto its own index is the identity |
| Hook.MoveBulletPointBack | resume-editor/src/hooks/useResume.ts:347-371 | moving a bullet from i to j and then from j to i restores the resume |
| Hook.AddSectionKeepsIdsUnique | resume-editor/src/hooks/useResume.ts:21-36 | with a fresh id, appending a section keeps identifiers unique at every level |
| Hook.AddItemKeepsIdsUnique | resume-editor/src/hooks/useResume.ts:57-100 | with a fresh id, appending an item keeps identifiers unique |
| Hook.AddBulletPointKeepsIdsUnique | resume-editor/src/hooks/useResume.ts:103-135 | with a fresh id, appending a bullet keeps identifiers unique |
| Editor.MoveSection | resume-editor/src/components/resume-editor.tsx:178-184 | the reordered sections are the splice move of the input: same length and multiset, dragged section at the hover index |
| Editor.MoveItem | resume-editor/src/components/resume-editor.tsx:187-203 | the loop over sections reorders items only in the matched section, exactly as the hook's move |
| Editor.MoveBulletPoint | resume-editor/src/components/resume-editor.tsx:207-232 | the nested loops reorder bullets only in the matched item of the matched section, exactly as the hook's move |
| Editor.ToggleSectionCollapse | resume-editor/src/components/resume-editor.tsx:279-288 | only the matched section's isCollapsed flips |
| Editor.ToggleSectionCollapseTwice | resume-editor/src/components/resume-editor.tsx:279-288 | collapsing twice restores the sections |
| Editor.ToggleItemCollapse | resume-editor/src/components/resume-editor.tsx:342-359 | only the matched item's isCollapsed flips |
| Editor.ToggleItemCollapseTwice | resume-editor/src/components/resume-editor.tsx:342-359 | collapsing an item twice restores the sections |
| Editor.UpdateItem | resume-editor/src/components/resume-editor.tsx:462-483 | the matched item becomes the item with the patch applied; others are unchanged |
| Editor.UpdateItemKeepsUnmentioned | resume-editor/src/components/resume-editor.tsx:462-483 | every field the patch does not name keeps its value |
| Editor.UpdateItemOverridesMentioned | resume-editor/src/components/resume-editor.tsx:462-483 | every field the patch names takes the patch's last value for it |
| Editor.UpdateBulletText | resume-editor/src/components/resume-editor.tsx:486-516 | the matched bullet gets the new text; its id, status and other fields are kept |
| Editor.RemoveSection | resume-editor/src/components/resume-editor.tsx:566 | a section is kept if and only if its id differs, with all its copies, in the original order |
| Editor.AddItem | resume-editor/src/components/resume-editor.tsx:597-607 | the item the server returned is appended to each matching section; others are unchanged |
| Editor.AddBulletPoint | resume-editor/src/components/resume-editor.tsx:642-660 | the bullet the server returned is appended to the matched item; all else is unchanged |
| Editor.AddItemThenRemove | resume-editor/src/components/resume-editor.tsx:597-607 | removing an item just added with a fresh id restores the sections |
| Editor.AddBulletPointThenRemove | resume-editor/src/components/resume-editor.tsx:642-660 | removing a bullet just added with a fresh id restores the sections |
| Preview.ActiveContent | resume-editor/src/components/pdf-preview.tsx:11-21 | every kept section, item and bullet is visible; each kept section is a visible source section with its children pruned; every visible section is kept |
| Preview.ActiveItems | resume-editor/src/components/pdf-preview.tsx:15-20 | every kept item is visible with only visible bullets; every visible item is kept |
| Preview.ActiveBullets | resume-editor/src/components/pdf-preview.tsx:19 | a bullet is kept if and only if it is in the input and visible |
| Preview.ActiveContentKeepsOrder | resume-editor/src/components/pdf-preview.tsx:11-21 | kept sections appear in their original relative order |
| Preview.ActiveItemsKeepOrder | resume-editor/src/components/pdf-preview.tsx:15-20 | kept items appear in their original relative order |
| Preview.ActiveBulletsKeepOrder | resume-editor/src/components/pdf-preview.tsx:19 | kept bullets appear in their original relative order |
| Preview.ActiveContentOfActive | resume-editor/src/components/pdf-preview.tsx:11-21 | a tree in which everything is visible is its own projection |
| Preview.ActiveContentIdempotent | resume-editor/src/components/pdf-preview.tsx:11-21 | projecting the projection changes nothing |
| Handlers.GetSections | backend/main.py:31-34 | the reply is the whole list, which is unchanged |
| Handlers.AddSection | backend/main.py:37-53 | exactly one section is appended, with title "New Section" and json the document of "New Section", and it is returned |
| Handlers.AddLatexSection | backend/main.py:56-71 | exactly one LaTeX section with empty title and json None is appended and returned |
| Handlers.UpdateLatex | backend/main.py:74-83 | a missing section gives 400 "Section not found"; a body without "text" gives a server error; otherwise the first matching section's json becomes the text; errors leave the list unchanged |
| Handlers.RemoveSection | backend/main.py:86-95 | only the first section with the id is removed; if none matches the reply is 404 and the list is unchanged |
| Handlers.ToggleSectionStatus | backend/main.py:98-107 | only the first matching section's status flips; a missing id gives 404 |
| Handlers.ToggleSectionStatusTwice | backend/main.py:98-107 | toggling twice restores the list |
| Handlers.ToggleSectionStatusAgreesWithHook | backend/main.py:98-107 | with unique section ids, the server's toggle leaves the same sections as the local hook's toggle |
| Handlers.UpdateSectionTitle | backend/main.py:110-122 | title and json are assigned only for the keys present in the body; a missing id gives 404 |
| Handlers.AddItem | backend/main.py:125-152 | the backend's default item is appended to the first matching section and returned; a missing id gives 404 |
| Handlers.LocateItem | backend/main.py:155-170 | "Section not found" exactly when no section has the id; "Item not found" exactly when the first such section lacks the item, without searching later sections |
| Handlers.LocateBullet | backend/main.py:223-239 | as the item lookup, and "Bullet point not found" exactly when the located item lacks the bullet |
| Handlers.ToggleItemStatus | backend/main.py:155-170 | only the located item's status flips and it is returned; a failed lookup's error is the reply and the list is unchanged |
| Handlers.ToggleItemStatusTwice | backend/main.py:155-170 | toggling an item twice restores the list |
| Handlers.UpdateItem | backend/main.py:173-191 | the located item gets exactly the body's known fields assigned; a failed lookup's error is the reply |
| Handlers.AddBulletPoint | backend/main.py:194-220 | a "New Bullet Point" bullet of type "BulletPoint" is appended to the located item and returned |
| Handlers.ToggleBulletStatus | backend/main.py:223-239 | only the located bullet's status flips and it is returned |
| Handlers.ToggleBulletStatusTwice | backend/main.py:223-239 | toggling a bullet twice restores the list |
| Handlers.UpdateBulletText | backend/main.py:242-266 | the located bullet gets text and json only for the keys present; all its other fields are kept |
| Handlers.RemoveSectionAgreesWithEditor | backend/main.py:86-95 | with unique section ids, the server's removal and the editor's filter give the same list |
| Handlers.AddItemAgreesWithEditor | backend/main.py:125-152 | with unique section ids, the editor appending the returned item reproduces the server's list |
| Handlers.AddBulletPointAgreesWithEditor | backend/main.py:194-220 | with unique ids, the editor appending the returned bullet reproduces the server's list |
| Backend.Store.GetSections | backend/main.py:31-34 | returns the stored list |
| Backend.Store.AddSection | backend/main.py:37-53 | the new list and reply are those of the add-section handler |
| Backend.Store.AddLatexSection | backend/main.py:56-71 | the new list and reply are those of the add-LaTeX handler |
| Backend.Store.UpdateLatex | backend/main.py:74-83 | the loop yields the list and reply of the update-LaTeX handler |
| Backend.Store.RemoveSection | backend/main.py:86-95 | the loop pops the first match, or leaves the list and replies 404 |
| Backend.Store.ToggleSectionStatus | backend/main.py:98-107 | the loop yields the list and reply of the toggle handler |
| Backend.Store.UpdateSectionTitle | backend/main.py:110-122 | the loop yields the list and reply of the title handler |
| Backend.Store.AddItem | backend/main.py:125-152 | the loop yields the list and reply of the add-item handler |
| Backend.Store.ToggleItemStatus | backend/main.py:155-170 | the nested loops yield the list and reply of the item toggle handler, with its distinct errors |
| Backend.AssignFields | backend/main.py:185-187 | the loop over the body's keys, skipping those the item lacks, yields exactly the in-order assignment ApplyFields |
| Backend.Store.UpdateItem | backend/main.py:173-191 | the nested loops and the loop over body fields yield the list and reply of the update-item handler |
| Backend.Store.AddBulletPoint | backend/main.py:194-220 | the nested loops yield the list and reply of the add-bullet handler |
| Backend.Store.ToggleBulletStatus | backend/main.py:223-239 | the triple loop yields the list and reply of the bullet toggle handler |
| Backend.Store.UpdateBulletText | backend/main.py:242-266 | the triple loop yields the list and reply of the bullet text handler |
| TiptapCompile.Compile | backend/compile.py:6-11 | a value that is neither a list nor a dict is returned unchanged |
| TiptapCompile.CompileList | backend/compile.py:13-14 | the first exception an element raises is the result; when every element compiles, the result is TypeError if one of them is not a string, and otherwise the concatenation of the compiled elements in order |
| TiptapCompile.CompileEach | backend/compile.py:14 | the comprehension succeeds exactly when every element compiles, gives each element's compilation at its position, and otherwise fails with the exception of the first element that raises |
| TiptapCompile.JoinStrs | backend/compile.py:14 | joining succeeds if and only if every element is a string, and then gives their concatenation in order; otherwise TypeError |
| TiptapCompile.CompileListAppend | backend/compile.py:13-14 | compiling a concatenated list concatenates the two compiled halves, in order |
| TiptapCompile.CompileIterable | backend/compile.py:17-18 | the content of a doc or paragraph is iterated: a list compiles as `compile_list` of its elements; a string compiles to itself; a dict compiles to its keys concatenated in order; a value that is not iterable raises TypeError |
| TiptapCompile.CompileDict | backend/compile.py:16-27 | a node without "type" raises KeyError; a type other than doc, paragraph or text raises ValueError("bad dict"); a doc or paragraph node compiles its "content" as an iterable, or raises KeyError when it has none; a text node without marks yields its text, or KeyError when it has none; a text node with marks raises what `style` raises, then KeyError without a text, and otherwise applies the marks to the text |
| TiptapCompile.CompileDocOf | backend/compile.py:16-27 | the document the editors create for a text compiles back to that text |
| TiptapCompile.MarkKindOf | backend/compile.py:36-43 | a mark without "type" raises KeyError; a successful lookup names one of link, bold, italic, underline |
| TiptapCompile.StyleError | backend/compile.py:29-34 | a list of marks is accepted as is; marks that are neither list nor dict raise ValueError("bad input :(") |
| TiptapCompile.Wrap | backend/compile.py:45-55 | bold, italic and underline wrap the text in their command; link wraps it in `\href` with the mark's href, raising KeyError or TypeError for missing or malformed attrs |
| TiptapCompile.ApplyMark | backend/compile.py:29-64 | a list of marks is applied in order as one stylist; a dict mark raises its lookup error or wraps the text as its kind says; any other mark raises ValueError("bad input :(") |
| TiptapCompile.ApplyMarksAppend | backend/compile.py:57-64 | applying a + b applies b to what a produced, or keeps a's exception |
| TiptapCompile.LastMarkOutermost | backend/compile.py:57-64 | the last mark wraps the output of the marks before it, so the first mark is innermost |
| TiptapCompile.ApplyMarks | backend/compile.py:57-64 | the stylist `style_list` returns: no marks leave the text unchanged and a single mark is `style(mark)` applied to it; with ApplyMarksAppend and LastMarkOutermost it is the left fold of the marks, each wrapping the output of the ones before it and the first exception stopping it |
| TiptapCompile.RunStylist | backend/compile.py:58-63 | the loop that updates `out` mark by mark gives the left fold of the marks, stopping at the first exception |
| LatexOut.Emitted | backend/latex.py:10-11 | with nothing shown the join is empty; it succeeds if and only if every shown element renders; a failing join raises the exception of the first shown element that fails |
| LatexOut.EmittedFirstFailure | backend/latex.py:10-11 | over the visible elements in order, a join whose k-th visible element fails while all before it render raises the k-th element's exception |
| LatexOut.EmittedSkipsHidden | backend/latex.py:26-27 | hidden elements contribute nothing: the join equals the join over the visible elements only |
| LatexOut.EmittedIsJoin | backend/latex.py:10-11 | the join succeeds exactly when every shown element renders, and is then the renderings of the shown elements concatenated in order |
| LatexOut.EmittedAppend | backend/latex.py:10-11 | the join over a concatenation concatenates the joins of the halves |
| LatexOut.ItemDate | backend/latex.py:34-36 | the date is non-empty if and only if both dates are, and then it is start---end |
| LatexOut.BulletLatex | backend/latex.py:54-56 | a bullet is `\resumeItem{compiled json}` and a newline, or the exception its json raises |
| LatexOut.BulletOfDoc | backend/latex.py:54-56 | a bullet whose json is the document of a text renders as `\resumeItem{text}` |
| LatexOut.ItemHead | backend/latex.py:33-41 | the subheading succeeds exactly when both rich-text fields compile, raises organizationJSON's exception first, and is `\resumeSubheading{title}{date}{organization}{location}` of the compiled fields, the date rule and the location |
| LatexOut.ItemLatex | backend/latex.py:33-51 | organizationJSON is compiled before titleJSON, and their exceptions propagate in that order; an item with no bullets emits only its subheading; otherwise the visible bullets sit between ItemListStart and ItemListEnd |
| LatexOut.ItemOfDocs | backend/latex.py:37-41 | an item whose rich-text fields are documents renders those texts in the subheading with its date and location |
| LatexOut.NewItemLatex | backend/latex.py:33-44 | the item either client adds renders as `\resumeSubheading{New Item}{}{Organization}{}` |
| LatexOut.AllBulletsHidden | backend/latex.py:43-49 | an item whose bullets are all hidden still opens and closes its bullet list |
| LatexOut.SectionLatex | backend/latex.py:15-30 | a LaTeX section is its title verbatim; a standard section starts with `\section{compiled json}` and a newline, emits only that with no items, and otherwise wraps its visible items in the list commands |
| LatexOut.AllItemsHidden | backend/latex.py:22-28 | a section whose items are all hidden still emits SubHeadingListStart and SubHeadingListEnd |
| LatexOut.SectionOfDoc | backend/latex.py:19-23 | a standard section without items whose json is a document renders that text as its header |
| LatexOut.ServerSectionLatex | backend/latex.py:19-23 | the section the backend adds renders as `\section{New Section}` |
| LatexOut.Content | backend/latex.py:10-11 | the content succeeds exactly when every visible section renders, and is then the renderings of the visible sections concatenated in order; otherwise it raises the exception of the first visible section that fails; with no visible section it is empty |
| LatexOut.ContentSkipsHidden | backend/latex.py:10-11 | the content depends only on the visible sections |
| LatexOut.ContentAppend | backend/latex.py:10-11 | the content of a + b is the content of a followed by that of b |
| LatexOut.GetLatex | backend/latex.py:6-12 | the result fails if and only if the content fails, with the same exception |
| LatexOut.GetLatexFillsPlaceholder | backend/latex.py:12 | a template holding the placeholder once gets the content in its place and is otherwise kept |
| LatexOut.GetLatexWithoutPlaceholder | backend/latex.py:12 | a template without the placeholder is returned unchanged |
| LatexOut.EmitItem | backend/latex.py:33-51 | building the string with `+=` gives exactly the item's rendering |
| LatexOut.EmitSection | backend/latex.py:15-30 | building the string with `+=` gives exactly the section's rendering |
| LatexOut.NewSectionRendersNone | backend/latex.py:19-20 | as written, the section the local hook adds renders as `\section{None}` |
| LatexOut.NewSectionIntendedRendersTitle | backend/latex.py:19-20 | the corrected new section equals the backend's one and renders as `\section{New Section}` |
| LatexOut.LatexEditNotRendered | backend/latex.py:16-17 | as written, after `updateLatexContent` an edited LaTeX section still renders as its title, exactly as before the edit |
| LatexOut.SectionLatexIntended | backend/latex.py:15-17 | corrected: a LaTeX section emits the text stored in its json, its title while none is stored; a standard section renders as before |
| LatexOut.LatexEditRendered | resume-editor/src/hooks/useResume.ts:188-197 | corrected: after `updateLatexContent` the edited LaTeX section renders exactly the new text |
| Api.ApiBaseUrl | resume-editor/src/config/api.ts:2-16 | the configured URL when it is set and non-empty, otherwise "http://localhost:8000" |
| Api.CleanEndpoint | resume-editor/src/config/api.ts:23 | a leading slash is removed; an endpoint without one is kept |
| Api.StripsOneSlash | resume-editor/src/config/api.ts:23 | only one leading slash is removed; a second one stays |
| Api.ApiUrl | resume-editor/src/config/api.ts:21-25 | the URL is the base, one slash, then the cleaned endpoint |
| Api.LeadingSlashOptional | resume-editor/src/config/api.ts:21-25 | an endpoint names the same URL with or without its leading slash |
| Api.EndpointVerbatim | resume-editor/src/config/api.ts:21-25 | an endpoint without a leading slash appears verbatim after the base and one slash |

## Left out

- Export and import of the hook (`exportResume`, `importResume`) and `storage.ts`. They use JSON
  serialisation, Blob, the DOM and localStorage. So the persisting part of `update` is also left out.
- The drag-hover geometry of the section, item, bullet and LaTeX components. It uses bounding
  rectangles and pixel offsets. Only the reorder it triggers is modelled.
- The rich-text editor components. They wrap the Tiptap library.
- `fetch`, toasts and the asynchronous flow of `resume-editor.tsx`. Only the state updates applied
  on success are modelled. The editor's status toggles and title updates, which copy the server's
  reply into the state, are not modelled separately.
- Identifier generation. Fresh ids are parameters, and uniqueness results require the id to be unused.
- Hook.AddItem: one fresh id is given to the new item of every section that matches. The hook draws
  a new UUID inside the `map` callback, so when several sections share the id each new item has its own.
  With unique section ids at most one section matches, and the two agree.
- Hook.AddBulletPoint: likewise one fresh id for the new bullet of every matching item, where the hook
  draws one UUID per match.
- The `/pdf` handler, `pdf_utils.py` and `cleanup.py`. They need the file system, subprocesses,
  timeouts and a semaphore. Reading `template.tex` is replaced by a template parameter.
- Authentication, the app shell and panel resizing.
- `splice` with an out-of-range drag or hover index is not modelled. The moves require valid indices.
- The logging in `getApiUrl`, and its evaluation once at module load.
- JSON numbers are integers. Floats and their Python `repr` are not modelled.
- JsonValue.Repr does not model the escaping of non-printable or non-ASCII characters.
- Handlers.UpdateItem: a body key that the pydantic model has as a method rather than a field is
  treated as unknown; in Python `hasattr` is true there and `setattr` would raise.
- Handlers.UpdateSectionTitle and Handlers.UpdateBulletText take their `title`/`text` values as
  strings. A body that carries another JSON type there is not modelled.
- Handlers.UpdateItem and Backend.Store.UpdateItem take each body value with the type of its field
  (a bool for `status`, bullet records for `bulletPoints`). `setattr` stores any JSON value, since
  the pydantic model does not validate assignment, so a body such as `{"status": "no"}` is stored as
  given; that case is not modelled.
- Duplicate keys in a request body are not modelled. `json.loads` keeps the last binding, and the
  lists of pairs used here have unique keys.
- Aliasing: a handler returns the pydantic object that stays in the list; here the reply is a copy
  of the value.
- The serialiser reads every record field directly. The typed records always have the keys, so
  the `KeyError` paths of `latex.py` for missing record keys do not arise.
- LatexOut.Emitted: its own contract states when the join succeeds and which exception a failing
  join raises; the joined text is stated by the lemma LatexOut.EmittedIsJoin rather than by Emitted
  itself.
- Hook.MoveSection, Hook.MoveItem, Hook.MoveBulletPoint: stated over values with the splice move
  of `Seqs`; the in-place `splice` on a copied array is `Seqs.SpliceMove`, which the editor's move
  methods use.

## Findings

| source | as written | input that shows it | evidently intended | confidence | as-written member | corrected member |
|---|---|---|---|---|---|---|
| resume-editor/src/hooks/useResume.ts:21-36 | `addSection` gives the new section `json: null`, and `get_latex_section` compiles that to `None`, so the section header renders as `\section{None}` | any resume after one `addSection`, serialised before the title is edited | the title document of "New Section", as the backend's `add_section` creates, rendering as `\section{New Section}` | medium, not executed | LatexOut.NewSectionRendersNone | LatexOut.NewSectionIntendedRendersTitle |
| resume-editor/src/hooks/useResume.ts:188-197 | `updateLatexContent` (and the `update-latex` handler) store the edited text in the section's `json`, while `get_latex_section` emits the title of a LaTeX section, so the edited text never reaches the LaTeX output | a LaTeX section with title `""`, edited to `\vspace{1em}` and then serialised: it still renders as the empty title | the edited text appears in the output in place of the section | medium, not executed | LatexOut.LatexEditNotRendered | LatexOut.LatexEditRendered |
