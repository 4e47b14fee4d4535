# Ordered sections, vector fields and the texture generator of SimpleShaderInspectors

SimpleShaderInspectors builds Unity material inspectors out of controls. This project models four of them and proves properties of the model:

- **OrderedSectionGroup.** It holds a list of **OrderedSection**s. Each section stores its rank, or *ordinal*, in a float material property called its activation property. The value is 0 while the section is disabled and its rank among the enabled sections otherwise.
  - Each frame the group first refreshes every section. On the first frame (the cache is still unset) it then sorts the list by ordinal and renumbers it. Next it draws the enabled sections in list order and carries out the up and down requests that their headers record. Only when some request was consumed does the frame end with another sort and renumbering.
  - The renumbering writes a counter 1, 2, ... to every section whose ordinal is non-zero and not mixed, in list order. That includes a disabled section whose ordinal went negative.
  - The add button appears while the cache says that some section is off on some material. Its menu turns a section on by giving it the sentinel ordinal 753 and then sorting and renumbering.
- **VectorControl.** It edits a four-component vector property through up to four fields. Hidden components keep their value.
- **TextureGeneratorControl.** Its bookkeeping is modelled:
  - classifying the inputs;
  - the localisation list;
  - opening and closing the generator panel;
  - the resolution enum;
  - the guards around the compute dispatch.

Files:

- `wrappers.dfy`: `Option` and `Result`.
- `material_property.dfy`: a float property over the selected materials (`targets`).
- `ordered_section.dfy`: the section class, and its per-frame state machine as functions on `SectionState`.
- `ordering.dfy`: the comparer, the renumbering pass, the push handling and the frame loop as functions on lists of states, with the lemmas about them.
- `section_group.dfy`: the group class. Its methods change the sections in place and are proved against `ordering.dfy`.
- `vector_control.dfy` and `texture_generator.dfy`: the other two controls.

Inputs that Unity's immediate-mode GUI supplies become parameters:
- clicks on a section's up, down and delete toggles, one `Clicks` per section in drawing order;
- button presses;
- the values the float fields return;
- what the change check reports;
- the resolution picked in the popup.

Ordinals are integers, because the code only ever writes 0, a counter, 753 and ±1 steps of those.

## Model

| member | source | states |
|---|---|---|
| MaterialProperty.WithValue | Editor/Controls/Sections/OrderedSectionGroup.cs:86-87 | Assigning `floatValue` stores the value on every selected material. Afterwards the property is coherent and not mixed. |
| MaterialProperty.RewriteSameValue | Editor/Controls/Sections/OrderedSectionGroup.cs:147-155 | Writing back the value a coherent, unmixed property already holds changes nothing. |
| Sections.Predrawn | Editor/Controls/Sections/OrderedSection.cs:217-222 | `Enabled` becomes "activation value > 0" and the per-frame update flag is cleared. Nothing else changes. |
| Sections.AfterSideButtons | Editor/Controls/Sections/OrderedSection.cs:188-215 | Up has priority over down: PushState becomes -1 if the up toggle is on, else 1 if the down toggle is on, else it is unchanged. The consumed toggle is cleared, and the up toggle is never left on. Turning the delete toggle off writes 0 to the activation property. The update flag is exactly "delete clicked". PushState stays in {-1, 0, 1}. |
| Sections.AfterControlGUI | Editor/Controls/Sections/OrderedSection.cs:228-280 | After the side buttons, a pending "turned on" notice sets the update flag and is consumed. Everything else is as after the side buttons. |
| Sections.DownRequestWaitsBehindUp | Editor/Controls/Sections/OrderedSection.cs:195-204 | Clicking both arrows gives an up push. The down toggle stays on and becomes a down push in a later frame with no clicks. |
| Sections.OrderedSection.WithShowProperty | Editor/Controls/Sections/OrderedSection.cs:151-163 | `AdditionalProperties` is the single activation property. The section starts idle and disabled. |
| Sections.OrderedSection.constructor | Editor/Controls/Sections/OrderedSection.cs:170-183 | As above, and the alias is the activation property name. |
| Sections.OrderedSection.PredrawUpdate | Editor/Controls/Sections/OrderedSection.cs:217-222 | The new fields are `Predrawn` of the old ones. |
| Sections.OrderedSection.DrawSideButtons | Editor/Controls/Sections/OrderedSection.cs:188-215 | The new fields are `AfterSideButtons` of the old ones and the clicks. |
| Sections.OrderedSection.ControlGUI | Editor/Controls/Sections/OrderedSection.cs:228-280 | The new fields are `AfterControlGUI` of the old ones and the clicks. |
| Ordering.CompareSectionsOrder | Editor/Controls/Sections/OrderedSectionGroup.cs:186-196 | The result is -1, 0 or 1. It is negative exactly when x precedes y (a null section first, then by value), positive exactly when y precedes x, and 0 exactly when both are equal. |
| Ordering.CompareIsConsistent | Editor/Controls/Sections/OrderedSectionGroup.cs:186-196 | The comparer is antisymmetric and transitive, as a sort needs. |
| Ordering.Renumbered | Editor/Controls/Sections/OrderedSectionGroup.cs:147-155 | Zero and mixed sections are untouched. Every other section keeps all fields except its ordinal and stays renumberable. |
| Ordering.RenumberedHoldsOneToM | Editor/Controls/Sections/OrderedSectionGroup.cs:147-155 | After renumbering, the non-zero unmixed ordinals are exactly 1..M in list order. |
| Ordering.RenumberingKeepsCount | Editor/Controls/Sections/OrderedSectionGroup.cs:147-155 | Renumbering keeps the number M of renumberable sections. |
| Ordering.RenumberingIsIdempotent | Editor/Controls/Sections/OrderedSectionGroup.cs:147-155 | Renumbering twice is the same as renumbering once. |
| Ordering.ReorderedHoldsOneToM | Editor/Controls/Sections/OrderedSectionGroup.cs:144-156 | After a sort and a renumbering, the list has its old length and the renumberable ordinals are 1..M. |
| Ordering.SortedArrangementIsUnique | Editor/Controls/Sections/OrderedSectionGroup.cs:146 | Two sorted arrangements of the same ordinals are equal, so an unstable sort still fixes the ordinal sequence. |
| Ordering.RenumberingFixesContiguous | Editor/Controls/Sections/OrderedSectionGroup.cs:147-155 | A list that has z zeros and then 1..K, with nothing mixed, is left unchanged by renumbering. |
| Ordering.Exchanged | Editor/Controls/Sections/OrderedSectionGroup.cs:84-95 | Section i gains delta and neighbour j loses delta. The push request of i is consumed and every other section is unchanged. |
| Ordering.ApplyPushAsWritten | Editor/Controls/Sections/OrderedSectionGroup.cs:82-95 | Push handling as written. A push down below index Count-1 adds 1 to i and subtracts 1 from i+1, whether or not i+1 is enabled. A push up with an enabled section above moves one unit the other way. Otherwise no ordinal changes. The request is consumed; no other field changes, and no disabled section other than i and i+1 is written. |
| Ordering.ApplyPush | Editor/Controls/Sections/OrderedSectionGroup.cs:82-95 | Push handling with the neighbour check. A push down with an enabled section below, or a push up with an enabled section above, moves one unit between the two. Otherwise no ordinal changes. The request is consumed, and no disabled section other than i is written. |
| Ordering.DrawStep | Editor/Controls/Sections/OrderedSectionGroup.cs:77-101 | One iteration with the corrected push down (see Findings). A disabled section is skipped. A frame needs an order update exactly when an enabled section ends its draw with a push request, and that request is consumed. Only i and its neighbours change, and disabled sections keep their activation. |
| Ordering.DrawLoop | Editor/Controls/Sections/OrderedSectionGroup.cs:77-101 | The loop with the corrected push down. Sections not reached yet are unchanged. |
| Ordering.DrawLoopKeepsPushStates | Editor/Controls/Sections/OrderedSectionGroup.cs:77-101 | If every PushState starts in {-1, 0, 1}, every PushState stays there through the frame loop. |
| Ordering.DrawStepAsWritten | Editor/Controls/Sections/OrderedSectionGroup.cs:77-101 | One iteration as written. As `DrawStep`, except that a push down onto a disabled section below takes one unit from that section's ordinal and leaves it disabled. |
| Ordering.DrawLoopAsWritten | Editor/Controls/Sections/OrderedSectionGroup.cs:77-101 | The loop as written. Sections not reached yet are unchanged. |
| Ordering.DrawLoopAgrees | Editor/Controls/Sections/OrderedSectionGroup.cs:84-88 | The loop as written and the corrected loop give the same states and flags, as long as no iteration pushes a section down onto a disabled one. |
| Ordering.PredrawAll | Editor/Controls/Sections/OrderedSectionGroup.cs:71-72 | Every section is predrawn. |
| Ordering.QuietIterations | Editor/Controls/Sections/OrderedSectionGroup.cs:77-101 | Iterations over idle, unclicked sections change nothing. |
| Ordering.PushFrame | Editor/Controls/Sections/OrderedSectionGroup.cs:77-101 | In a quiet list, one up or down click between two enabled neighbours makes the frame loop produce exactly `Exchanged`. The frame needs an order update and no availability update. |
| Ordering.RenumberedIsSettled | Editor/Controls/Sections/OrderedSectionGroup.cs:147-155 | A list that renumbering leaves unchanged is settled: its renumberable ordinals are 1..K in list order. Deleted sections (0) may sit anywhere, since a delete frame does not sort. |
| Ordering.SettledMultiset | Editor/Controls/Sections/OrderedSectionGroup.cs:147-155 | The ordinals of a settled list are z zeros and 1..K, in some order. |
| Ordering.SortUndoesExchange | Editor/Controls/Sections/OrderedSectionGroup.cs:144-156 | Take a settled list and exchange the ordinals of two enabled neighbours holding v and v+1. Every sorted arrangement then holds z zeros followed by 1..K, so renumbering leaves it alone. The section that held v+1 sits at ordinal v and the other right after it. |
| Ordering.PushDownSwapsWithNeighbour | Editor/Controls/Sections/OrderedSectionGroup.cs:77-106 | In a quiet, settled list (zeros anywhere), a frame with a push down on an enabled section above an enabled one exchanges their ordinals and asks for a renumbering. Every sort of the result holds z zeros and then 1..K, which renumbering leaves alone, and the pushed section comes right after its neighbour. |
| Ordering.PushUpSwapsWithNeighbour | Editor/Controls/Sections/OrderedSectionGroup.cs:77-106 | The same for a push up below an enabled section: the pushed section comes right before its neighbour. |
| Ordering.DeletedSectionIsNotWritten | Editor/Controls/Sections/OrderedSectionGroup.cs:79-93 | With the neighbour check, the frame loop never writes a disabled section's activation, and the section stays disabled. |
| Ordering.TurnedOn | Editor/Controls/Sections/OrderedSectionGroup.cs:137-139 | The section gets the unmixed sentinel 753 and the "turned on" notice. Nothing else changes. |
| Ordering.SentinelSortsLast | Editor/Controls/Sections/OrderedSectionGroup.cs:146 | When every other ordinal is below 753, every sorted arrangement puts the sentinel section last. |
| Ordering.TurnedOnSectionGoesLast | Editor/Controls/Sections/OrderedSectionGroup.cs:135-156 | When every other ordinal is below 753, the turned-on section is last after the sort and gets ordinal M from the renumbering. |
| Ordering.DeleteLeavesZeroBelow | Editor/Controls/Sections/OrderedSectionGroup.cs:77-106 | Deleting the last of two sections sets its ordinal to 0 and asks for no renumbering. |
| Ordering.PushDownWritesDeletedNeighbour | Editor/Controls/Sections/OrderedSectionGroup.cs:77-101 | In the loop as written, a push down on the first section writes -1 to the deleted second one, which stays disabled, and asks for a renumbering. |
| Ordering.PushDownSkipsDeletedNeighbour | Editor/Controls/Sections/OrderedSectionGroup.cs:77-101 | In the corrected loop, the deleted section keeps ordinal 0. |
| Ordering.PushDownRevivesDeletedSection | Editor/Controls/Sections/OrderedSectionGroup.cs:77-106 | Frame 1 deletes B. Frame 2 pushes A down. As written, B ends first with ordinal 1, so the deleted section is enabled again. With the check, B keeps 0. |
| SectionGroup.Offered | Editor/Controls/Sections/OrderedSectionGroup.cs:121-126 | The menu holds exactly the sections that are 0 on some material. |
| SectionGroup.MenuMatchesCache | Editor/Controls/Sections/OrderedSectionGroup.cs:158-167 | The menu is non-empty exactly when `AreNewSectionsAvailable` holds. |
| SectionGroup.OrderedSectionGroup.constructor | Editor/Controls/Sections/OrderedSectionGroup.cs:55-61 | The list is empty and the cache is unset. |
| SectionGroup.OrderedSectionGroup.AddControl | Editor/Controls/Sections/OrderedSectionGroup.cs:208 | The section is appended. |
| SectionGroup.OrderedSectionGroup.AddAnyControl | Editor/Controls/Sections/OrderedSectionGroup.cs:215-219 | Only an OrderedSection is appended. Any other control leaves the list unchanged. |
| SectionGroup.OrderedSectionGroup.SortByOrdinal | Editor/Controls/Sections/OrderedSectionGroup.cs:146 | The result is a permutation of the same distinct sections, sorted by ordinal, with each section's old position tracked. |
| SectionGroup.OrderedSectionGroup.UpdateSectionsOrder | Editor/Controls/Sections/OrderedSectionGroup.cs:144-156 | The list is a permutation of its old contents. The section states are `Renumbered` of a sorted permutation of the old states. |
| SectionGroup.OrderedSectionGroup.Renumber | Editor/Controls/Sections/OrderedSectionGroup.cs:147-155 | The counter loop leaves the states `Renumbered`. |
| SectionGroup.OrderedSectionGroup.HasAtLeastOneDisabled | Editor/Controls/Sections/OrderedSectionGroup.cs:169-178 | True exactly when some selected material holds 0. |
| SectionGroup.OrderedSectionGroup.AreNewSectionsAvailable | Editor/Controls/Sections/OrderedSectionGroup.cs:158-167 | True exactly when some section holds 0 on some material. |
| SectionGroup.OrderedSectionGroup.DrawAddButton | Editor/Controls/Sections/OrderedSectionGroup.cs:112-129 | The button is shown unless the cache says false. When it is pressed, the menu is `Offered`. |
| SectionGroup.OrderedSectionGroup.CollectOffered | Editor/Controls/Sections/OrderedSectionGroup.cs:121-124 | The menu loop collects exactly `Offered`: the sections that are 0 on some material, in list order. |
| SectionGroup.OrderedSectionGroup.MarkAndRefresh | Editor/Controls/Sections/OrderedSectionGroup.cs:137-140 | The chosen section alone gets the unmixed sentinel 753 and the notice. The cache is then recomputed from the new states. |
| SectionGroup.OrderedSectionGroup.TurnOnSection | Editor/Controls/Sections/OrderedSectionGroup.cs:135-142 | The chosen section gets the sentinel and the notice, and the cache is recomputed from that state. The list is then sorted and renumbered. While every other ordinal is below 753, the section ends last with ordinal M. |
| SectionGroup.OrderedSectionGroup.DrawAll | Editor/Controls/Sections/OrderedSectionGroup.cs:77-101 | The loop's states and flags are `DrawLoop` (corrected push down) of the start states. |
| SectionGroup.OrderedSectionGroup.DrawAndEnd | Editor/Controls/Sections/OrderedSectionGroup.cs:77-110 | The frame loop gives `DrawLoop` (corrected push down) of the states at its start. The cache is recomputed on the first frame or after an activation change. A push frame ends sorted and renumbered, with the section now at index k traced to its index before the sort. Any other frame leaves the list and the states as drawn. The menu is as in `DrawAddButton`. |
| SectionGroup.OrderedSectionGroup.ControlGUI | Editor/Controls/Sections/OrderedSectionGroup.cs:67-110 | Predraw; on the first frame sort and renumber, tracing each section to its old index; then the frame loop (`DrawLoop`, corrected push down). The cache is recomputed on the first frame or after an activation change. A push frame ends sorted and renumbered, again traced section by section; any other frame leaves the list and the states as drawn. The menu is as in `DrawAddButton`. |
| Vectors.WithVector | Editor/Controls/VectorControl.cs:81 | Writing the vector clears the mixed flag. |
| Vectors.VectorControl.VisibleComponents | Editor/Controls/VectorControl.cs:57-76 | At most 4 distinct components, holding exactly the visible ones. |
| Vectors.VectorControl.Masked | Editor/Controls/VectorControl.cs:57-76 | Visible components come from the fields and hidden ones from the current value. |
| Vectors.VectorControl.constructor | Editor/Controls/VectorControl.cs:25-38 | The visible count is the number of visible flags, so it is at most 4. |
| Vectors.VectorControl.MergeComponents | Editor/Controls/VectorControl.cs:53-76 | The vector is `Masked`. The k-th visible component, in X, Y, Z, W order, is drawn in fragment k, and the counter ends at the visible count. |
| Vectors.VectorControl.ControlGUI | Editor/Controls/VectorControl.cs:44-87 | The fields are drawn with the property's mixed flag and at indent 0. Only when a change is reported are the property written (`Masked`, unmixed) and the undo registered under its name. The indent level is restored and the mixed flag cleared. |
| Vectors.VectorControl.UnchangedFieldsWriteSameValue | Editor/Controls/VectorControl.cs:57-76 | Writing back unedited fields leaves the vector as it was. |
| Vectors.VectorControl.MaskingIsIdempotent | Editor/Controls/VectorControl.cs:57-76 | Writing the same field values twice is the same as once. |
| Vectors.VectorControl.HiddenRowKeepsValue | Editor/Controls/VectorControl.cs:57-76 | With no visible component, the value is never altered. |
| TextureGenerator.Size | Editor/Controls/TextureGeneratorControl.cs:309-317 | Every resolution is a power of two between 128 and 4096 and divisible by 16. |
| TextureGenerator.ThreadGroups | Editor/Controls/TextureGeneratorControl.cs:295 | 16 threads per group times the group count is exactly the size, which is at least 8 groups. |
| TextureGenerator.SizeIdentifiesResolution | Editor/Controls/TextureGeneratorControl.cs:309-317 | Distinct resolutions have distinct sizes. |
| TextureGenerator.Localize | Editor/Controls/TextureGeneratorControl.cs:159-167 | One localisation entry per name, in order. |
| TextureGenerator.Decimal | Editor/Controls/TextureGeneratorControl.cs:171 | A non-empty string of decimal digits. |
| TextureGenerator.DecimalRoundTrip | Editor/Controls/TextureGeneratorControl.cs:171 | Reading back the digits gives the number. |
| TextureGenerator.InputName | Editor/Controls/TextureGeneratorControl.cs:171 | Every name is "Input" followed by digits. |
| TextureGenerator.InputNamesAreDistinct | Editor/Controls/TextureGeneratorControl.cs:169-171 | Distinct inputs get distinct names. |
| TextureGenerator.ClassifyInputs | Editor/Controls/TextureGeneratorControl.cs:131-147 | The texture flag is set exactly when there is a texture input, and the colour flag exactly when there is a colour input. The scan stops at the first prefix holding both and never earlier. |
| TextureGenerator.NameInputs | Editor/Controls/TextureGeneratorControl.cs:169-171 | One entry per input, and entry i is named `"Input" + (i+1)`. |
| TextureGenerator.AssembleContent | Editor/Controls/TextureGeneratorControl.cs:87-98 | The getter succeeds exactly when every array it appends was allocated. It then returns the base entries, the texture entries if textures, the colour entries if colours, and the names. |
| TextureGenerator.ColorContentAsWritten | Editor/Controls/TextureGeneratorControl.cs:166-167 | As written, the colour entries exist exactly when there is a texture input. |
| TextureGenerator.ColourOnlyInputsBreakContent | Editor/Controls/TextureGeneratorControl.cs:166-167 | As written, with a colour input and no texture input, the getter fails. |
| TextureGenerator.SingleColourInputBreaksContent | Editor/Controls/TextureGeneratorControl.cs:166-167 | A single colour input is enough to make the getter fail. |
| TextureGenerator.Content | Editor/Controls/TextureGeneratorControl.cs:87-98 | With the colour entries allocated under the colour flag, the getter always succeeds. It returns 4 + [textures] + [colours] + number-of-inputs entries, the 4 base entries first and the names last. |
| TextureGenerator.AsWrittenDiffersOnlyOnColourOnly | Editor/Controls/TextureGeneratorControl.cs:87-98 | As written, the getter fails exactly for colour inputs without texture inputs. Otherwise it agrees with `Content`. |
| TextureGenerator.TextureGeneratorControl.constructor | Editor/Controls/TextureGeneratorControl.cs:119-172 | 512x512 target, panel closed, flags from classification, content arrays allocated by their own flags, names per input. |
| TextureGenerator.TextureGeneratorControl.AdditionalContent | Editor/Controls/TextureGeneratorControl.cs:87-100 | For a constructed control, the getter is `Content` of its inputs. |
| TextureGenerator.TextureGeneratorControl.ControlGUI | Editor/Controls/TextureGeneratorControl.cs:178-199 | The open button opens the panel, which is drawn in the same frame. Drawn means the popup sets the resolution, save generates and closes, and cancel closes. |
| TextureGenerator.TextureGeneratorControl.DrawGenerator | Editor/Controls/TextureGeneratorControl.cs:237-249 | The resolution is chosen, save generates and clears the open flag, and cancel clears it. |
| TextureGenerator.TextureGeneratorControl.GenerateTexture | Editor/Controls/TextureGeneratorControl.cs:256-298 | The target is replaced exactly when its size differs from the resolution, and afterwards it matches. A buffer exists exactly when its list is non-empty, with that many elements and stride 20 or 16. Every buffer is released after the dispatch of size/16 by size/16 by 1 groups. |

## Left out

- Immediate-mode drawing is not modelled: labels, styles, colours, rects, foldouts and the display of the generic menu. Clicks, button presses, field values and change checks are parameters.
- `GetFragmentedRect` and `DrawSingleField` in VectorControl, and the column count in `DrawGenerator`, are not modelled. They are floating-point layout.
- The compute-shader work is not modelled: kernel lookup, `SetTexture`/`SetFloat`/`SetBuffer`, `Dispatch` itself, buffer `SetData`, pixel readback and saving the texture asset. Only the guards and the sizes they use remain.
- Parsing the generator options (`TextureGeneratorHelper.GetInputs`) and the inputs' own `AssignInputsToCompute` and `InputGUI` are not part of this model. Inputs are a sequence of kinds, and the parameter counts are parameters.
- The per-input choice of texture or colour entries in `DrawGenerator` is not modelled, because it only selects what `InputGUI` draws.
- The `AddVectorControl` extension and the base classes (`Section`, `PropertyControl`, `TextureControl`) are not part of this model. The vector property is a field of the control; the base class fetches it from the materials.
- Ordinals are integers, not floats. Float rounding cannot arise for the values written (0, counters, 753 and ±1 steps).
- SectionGroup.OrderedSectionGroup.SortByOrdinal: the source calls `List.Sort`, an unstable introspective sort. The model uses an insertion sort and promises only what `List.Sort` promises: a sorted permutation. The order of equal ordinals is left open.
- A null entry in the section list, which `CompareSectionsOrder` handles, is not modelled for the list itself: sections are non-null objects. The comparer still models both null cases.
- SectionGroup.OrderedSectionGroup.ControlGUI: the frame loop uses the corrected push down, which also checks that the section below is enabled (see Findings). `Ordering.DrawLoopAsWritten` models the loop as written, and `Ordering.DrawLoopAgrees` says when the two agree.
- SectionGroup.OrderedSectionGroup.DrawAndEnd: uses the corrected push down, as ControlGUI does.
- SectionGroup.OrderedSectionGroup.DrawAll: the loop the method runs is the corrected one, as in ControlGUI.
- Ordering.DrawStep: the corrected iteration. Its "disabled sections keep their activation" holds only with the neighbour check; `Ordering.DrawStepAsWritten` states what the code as written does to a disabled section below.
- Ordering.DrawLoop: the corrected loop; `Ordering.DrawLoopAsWritten` is the loop as written.
- SectionGroup.OrderedSectionGroup.AddControl: requires a section that is not already in the list, because the model keeps the sections distinct (`Valid`). `Controls.Add` at line 208 accepts a duplicate; a list holding the same section twice is not modelled.
- Ordering.PushDownSwapsWithNeighbour: the premise is a settled list, with the enabled ordinals 1..K in list order and deleted sections at 0 anywhere. Deleting a middle section leaves a gap (1, 0, 3) until the next renumbering, and a push in that state is not covered.
- Ordering.PushUpSwapsWithNeighbour: the same premise and the same gap.
- The components of a `Vector4` are `real`, not 32-bit `float`. The control only copies components between the fields and the property, so no rounding arises in what is modelled.
- TextureGenerator.TextureGeneratorControl.constructor: the colour entries are allocated under the colour flag, the corrected behaviour (see Findings). `TextureGenerator.ColorContentAsWritten` models the code as written.

## Findings

| source | as written | input that shows it | evidently intended | confidence | as-written member | corrected member |
|---|---|---|---|---|---|---|
| Editor/Controls/Sections/OrderedSectionGroup.cs:84 | A push down moves one unit from the section below without checking that it is enabled (the push up at line 89 does check). | Two sections A=1 and B=2. Frame 1 deletes B: B becomes 0 and no renumbering happens. Frame 2 pushes A down: B becomes -1, the sort puts B first and renumbering gives it 1. | A push down exchanges only with an enabled section below, as a push up does. A deleted section stays at 0. | high, not executed | Ordering.DrawLoopAsWritten, Ordering.PushDownRevivesDeletedSection | Ordering.DrawLoop, Ordering.DeletedSectionIsNotWritten |
| Editor/Controls/TextureGeneratorControl.cs:166 | The colour entries are allocated under the texture flag, but the `AdditionalContent` getter appends them under the colour flag (line 94). | Inputs consisting of one colour input: the getter calls `AddRange(null)`, which throws. | Allocate the colour entries when there is a colour input. | high, not executed | TextureGenerator.ColorContentAsWritten, TextureGenerator.SingleColourInputBreaksContent | TextureGenerator.Content, TextureGenerator.TextureGeneratorControl.AdditionalContent |
