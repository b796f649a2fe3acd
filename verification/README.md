# Aurora engine core, modelled in Dafny

Aurora is a small C++ 2D game engine built on SFML. This project models, and
proves properties of, its core:

- the **scene graph** (`SceneNode`): ownership of children, the three pairs
  of activation switches, the event/update/draw traversals and the removal
  sweep;
- the **state stack** (`StateStack`, `State`): deferred push/pop/remove/clear
  requests, top-down event and update propagation, and state lookup. The
  stack sees a state only through its answers (`StateStacks.StateBehaviour`);
  the state object with its scene graph is the class `States.State`;
- the **GUI widgets** (`Button`, `Textbox`): the button's five-state machine
  with one visible state node, and the textbox's editing, caret blinking and
  Return confirmation;
- **sprite animation** (`Animation`): loopback expansion of the frames,
  equal frame durations and the frame-advance rule;
- the **particle system** (`ParticleSystem`): spawning, aging, expiry and the
  vertex array of one textured quad per particle;
- **vertex and material nodes** (`VertexNode`, `MaterialNode`): node size,
  resizing, texture mapping, origin flags and relative alignment;
- the **resource holder** and the **sound properties** (volume clamping and
  the minimum-distance guard).

Each C++ class whose methods update fields in place is a Dafny `class` with
those fields. Its methods carry `modifies` clauses and are specified
against pure functions: `Step`, `Apply`, `Visits`, `Extent`, `Scaled`,
`OriginFor`, `Spawned`/`Aged`/`Expired` and so on. The properties the engine
promises are proved about those functions as lemmas. Loops in the source stay
loops, with invariants. Examples are the child traversals, remove_if, the
animation's loopback and duration loops, the vertex loops and the particle
loops. Time is integer microseconds (SFML's `sf::Time`). Floating-point
coordinates are `real`. Whatever comes from the window, the mouse, the fonts
or the audio device is a parameter:
- whether the mouse hovers over a button;
- whether a character still fits on the line;
- the listener depth and its square root;
- whether a file could be loaded.

Three behaviours of the code are modelled as written and proved, because they
are what the program does:

- `std::remove_if` is called without the follow-up `erase`, both in
  `SceneNode::removeChildrenMarkedForRemoval` and in the stack's Remove
  action. The container never shrinks. The unmarked elements are compacted
  to the front, and the tail keeps marked originals or moved-from husks.
  Under the default policy every attached child is marked (it has a parent),
  so the sweep changes nothing. The header comment at
  `Aurora_static/Source/SceneNode.h:82-89` says marked nodes are removed.
  The code keeps them.
- `Animation::updateCurrent` hands the sprite the frame it is leaving, before
  incrementing the index. So the sprite lags one frame behind the index.
  Without repeat, `updateCurrent` never hands over the last frame. Only
  `finalizeAnimationSetup` hands over the starting frame, and that frame is
  the last one only in a one-frame animation.
- `VertexNode::setTextureRect` uses only the width and height of the
  rectangle. Its left and top cancel out, so a quad always maps onto a
  rectangle anchored at texture coordinate (0, 0).

## Model

| member | source | states |
|---|---|---|
| StdAlgorithms.Kept | Aurora_static/Source/SceneNode.cpp:131-136 | the unmarked elements in their original order, never longer than the input |
| StdAlgorithms.AfterRemoveIf | Aurora_static/Source/SceneNode.cpp:131-136 | remove_if without erase keeps the container's length |
| StdAlgorithms.RemoveIfCompacts | Aurora_static/Source/SceneNode.cpp:131-136 | after remove_if the first k entries are exactly the unmarked elements in order |
| StdAlgorithms.RemoveIfTail | Aurora_static/Source/StateStack.cpp:112-116 | every entry past the compacted prefix is an untouched marked original or the moved-from husk of an unmarked one |
| StdAlgorithms.RemoveIfAllMarked | Aurora_static/Source/SceneNode.cpp:131-136 | when every element is marked, remove_if leaves the container as it was |
| StdAlgorithms.RemoveIfNoneMarked | Aurora_static/Source/StateStack.cpp:112-116 | when no element is marked, remove_if leaves the container as it was |
| StdAlgorithms.RemoveIfMarkedSuffix | Aurora_static/Source/StateStack.cpp:112-116 | when all marked elements come after the unmarked ones, nothing moves |
| StdAlgorithms.RemoveIf | Aurora_static/Source/SceneNode.cpp:133-135 | the two-pointer scan (find first marked, move later unmarked ones down) yields AfterRemoveIf and the count of kept elements |
| SceneGraph.SceneNode.constructor | Aurora_static/Source/SceneNode.cpp:8-17 | no parent, no children, all six switches on |
| SceneGraph.SceneNode.AttachChild | Aurora_static/Source/SceneNode.cpp:36-40 | the child is appended, points back to this node, and the tree stays well formed with the child's subtree added |
| SceneGraph.SceneNode.DetachChild | Aurora_static/Source/SceneNode.cpp:42-54 | the child, found by identity, is removed from the list at its position, gets a null parent and is returned intact |
| SceneGraph.AttachDetachRoundTrip | Aurora_static/Source/SceneNode.cpp:36-54 | attach then detach gives back the child list and footprint of before; the child is parentless again and keeps its children and its three activation switches |
| SceneGraph.SceneNode.ActivateEventHandling | Aurora_static/Source/SceneNode.cpp:70-83 | Current, Children or All sets exactly the named event switches; nothing else changes |
| SceneGraph.SceneNode.ActivateUpdating | Aurora_static/Source/SceneNode.cpp:85-98 | the same for the update switches |
| SceneGraph.SceneNode.ActivateDrawing | Aurora_static/Source/SceneNode.cpp:100-113 | the same for the drawing switches |
| SceneGraph.SceneNode.ChildFlagsDoNotMatter | Aurora_static/Source/SceneNode.cpp:70-113 | switching a child's flags keeps the parent's tree well formed |
| SceneGraph.SceneNode.IsDestroyed | Aurora_static/Source/SceneNode.cpp:120-123 | a node counts as destroyed exactly while it has a parent |
| SceneGraph.SceneNode.IsMarkedForRemoval | Aurora_static/Source/SceneNode.cpp:115-118 | the default removal policy marks exactly the destroyed nodes, so exactly the attached ones |
| SceneGraph.SceneNode.AttachedChildrenAreMarked | Aurora_static/Source/SceneNode.cpp:115-123 | with the default policy every attached child is marked for removal, because it has a parent |
| SceneGraph.SceneNode.RemoveChildrenMarkedForRemoval | Aurora_static/Source/SceneNode.cpp:131-136 | the children become AfterRemoveIf of their marks, which leaves the list unchanged |
| SceneGraph.SceneNode.HandleEvent | Aurora_static/Source/SceneNode.cpp:56-60 | the nodes whose own hook runs are exactly the event traversal of the subtree |
| SceneGraph.SceneNode.HandleEventChildren | Aurora_static/Source/SceneNode.cpp:138-142 | every child's traversal, in child order |
| SceneGraph.SceneNode.Update | Aurora_static/Source/SceneNode.cpp:62-68 | sweep, then the update traversal; the tree is left as it was |
| SceneGraph.SceneNode.UpdateChildren | Aurora_static/Source/SceneNode.cpp:148-152 | every child updated in child order; the tree is left as it was |
| SceneGraph.SceneNode.Draw | Aurora_static/Source/SceneNode.cpp:125-129 | the nodes drawn are exactly the draw traversal of the subtree |
| SceneGraph.SceneNode.DrawChildren | Aurora_static/Source/SceneNode.cpp:158-162 | every child drawn in child order |
| SceneGraph.SceneNode.VisitsInRepr | Aurora_static/Source/SceneNode.cpp:138-162 | a traversal only reaches nodes of the subtree |
| SceneGraph.SceneNode.VisitsOnce | Aurora_static/Source/SceneNode.cpp:56-68 | no hook runs twice in one traversal, and the node's own hook runs exactly when its current switch is on |
| SceneGraph.SceneNode.ChildVisitsOnce | Aurora_static/Source/SceneNode.cpp:138-142 | the children's traversals never visit a node twice |
| States.State.constructor | Aurora_static/Source/State.cpp:6-11 | bounds at the origin with the window's size, an empty scene graph |
| States.State.ReinitializeWindowBounds | Aurora_static/Source/State.cpp:17-21 | width and height follow the window; left and top stay |
| States.State.HandleEvent | Aurora_static/Source/State.cpp:23-27 | the scene graph's event traversal runs and propagation goes on |
| States.State.Update | Aurora_static/Source/State.cpp:29-33 | the scene graph's update traversal runs and propagation goes on |
| States.State.Draw | Aurora_static/Source/State.cpp:35-38 | the scene graph's draw traversal runs |
| StateStacks.Default | Aurora_static/Source/State.cpp:23-33 | the base state always lets the traversal go on and queues nothing |
| StateStacks.Walk | Aurora_static/Source/StateStack.cpp:20-36 | the top-down traversal from the top entry, which visits at most as many states as the stack holds |
| StateStacks.WalkShape | Aurora_static/Source/StateStack.cpp:20-36 | the traversal visits a gapless run from the top down; each visited state but the last said go on; an early stop is caused by the last one saying stop |
| StateStacks.WalkVisitsAll | Aurora_static/Source/StateStack.cpp:20-36 | when every state says go on, every index is visited, top to bottom |
| StateStacks.DefaultStatesVisitAll | Aurora_static/Source/StateStack.cpp:20-36 | a stack of base states is traversed completely |
| StateStacks.IdMarks | Aurora_static/Source/StateStack.cpp:113-115 | an entry is selected for removal exactly when its id matches |
| StateStacks.Apply | Aurora_static/Source/StateStack.cpp:103-119 | the size after one change: Push adds one, Pop removes one, Remove keeps it, Clear empties |
| StateStacks.ApplyChanges | Aurora_static/Source/StateStack.cpp:101-122 | each queued change grows the stack by at most one entry; a batch of Remove requests never changes its size; an empty queue changes nothing |
| StateStacks.ApplyChangesAppend | Aurora_static/Source/StateStack.cpp:101-122 | applying two batches in turn equals applying their concatenation |
| StateStacks.PushPushPop | Aurora_static/Source/StateStack.cpp:103-111 | push X, push Y, pop leaves X on top of the old stack |
| StateStacks.RemoveTopmostKeepsStack | Aurora_static/Source/StateStack.cpp:112-116 | removing ids that all sit above every other entry leaves the stack unchanged: nothing is erased |
| StateStacks.RemoveBottomLeavesNull | Aurora_static/Source/StateStack.cpp:112-116 | removing Menu from [Menu, Game] gives [Game, Game with a null state] |
| StateStacks.RemoveBelowBreaksNextFrame | Aurora_static/Source/StateStack.cpp:20-42 | after that Remove the top entry holds a null state, so the next handleEvent, update or draw dereferences null: the stack leaves the domain of Propagate, HandleEvent, Update and Draw |
| StateStacks.FirstMatch | Aurora_static/Source/StateStack.cpp:64-71 | the bottom-most index with the id, or the stack size when none has it |
| StateStacks.FirstMatchIs | Aurora_static/Source/StateStack.cpp:64-71 | any index with the id, below which no entry has it, is the one getState finds |
| StateStacks.StateStack.constructor | Aurora_static/Source/StateStack.cpp:14-18 | empty stack, empty queue, no factories |
| StateStacks.StateStack.RegisterState | Aurora_static/Source/StateStack.inl:8-14 | the factory for the id is set, replacing any earlier one |
| StateStacks.StateStack.PushState | Aurora_static/Source/StateStack.cpp:44-47 | a Push request is queued; the stack is untouched |
| StateStacks.StateStack.PopState | Aurora_static/Source/StateStack.cpp:49-52 | a Pop request is queued; the stack is untouched |
| StateStacks.StateStack.RemoveState | Aurora_static/Source/StateStack.cpp:54-57 | a Remove request is queued; the stack is untouched |
| StateStacks.StateStack.ClearStates | Aurora_static/Source/StateStack.cpp:59-62 | a Clear request is queued; the stack is untouched |
| StateStacks.StateStack.GetState | Aurora_static/Source/StateStack.cpp:64-71 | the state of the bottom-most entry with the id, or null |
| StateStacks.StateStack.CreateState | Aurora_static/Source/StateStack.cpp:93-99 | the registered factory's state; the id must be registered |
| StateStacks.StateStack.ApplyPendingChanges | Aurora_static/Source/StateStack.cpp:101-122 | the queued changes are applied in request order, then the queue is empty |
| StateStacks.StateStack.Propagate | Aurora_static/Source/StateStack.cpp:22-24 | the top-down walk: the visited indices and the queued requests are those of Walk |
| StateStacks.StateStack.HandleEvent | Aurora_static/Source/StateStack.cpp:20-27 | the event walk, then its requests and the earlier ones are applied |
| StateStacks.StateStack.Update | Aurora_static/Source/StateStack.cpp:29-36 | the update walk, then its requests and the earlier ones are applied |
| StateStacks.StateStack.Draw | Aurora_static/Source/StateStack.cpp:38-42 | every entry's state is drawn once, bottom to top; the result lists their ids in that order |
| StateStacks.WalkStep | Aurora_static/Source/StateStack.cpp:22-24 | one step of the walk: a go-on answer continues below, a stop answer ends the trace |
| Buttons.Index | Aurora_static/Source/GUI/Button.h:23 | every button state indexes one of the five state nodes |
| Buttons.OnEvent | Aurora_static/Source/GUI/Button.cpp:103-115 | Disabled is never entered or left; any change comes with activateCurrentState; HeldDown is reached only from HoveredOver by a left press, and Clicked only by a left release over the button |
| Buttons.OnUpdate | Aurora_static/Source/GUI/Button.cpp:117-129 | Disabled is never entered or left; the state changes exactly when activateCurrentState runs; HoveredOver needs the mouse over the button; Clicked and HeldDown are kept |
| Buttons.OnActivate | Aurora_static/Source/GUI/Button.cpp:58-68 | the result is Disabled exactly when flag is false; enabling a disabled button gives Idle, and an enabled one keeps its state |
| Buttons.CopiedState | Aurora_static/Source/GUI/Button.cpp:37 | a copy is Disabled exactly when the original is, and Idle otherwise |
| Buttons.DisabledOnlyByActivate | Aurora_static/Source/GUI/Button.cpp:103-129 | events and updates never disable a button or enable a disabled one |
| Buttons.ActivateSetsEnabled | Aurora_static/Source/GUI/Button.cpp:58-68 | activate(false) always disables and activate(true) never does; it is idempotent and realigns exactly when the state changes |
| Buttons.OnlyLeftButtonCounts | Aurora_static/Source/GUI/Button.cpp:105 | events other than a left press or release change nothing |
| Buttons.ClickSequence | Aurora_static/Source/GUI/Button.cpp:103-129 | hover, left press, left release gives Clicked if still hovered and Idle otherwise |
| Buttons.ClickedIsSticky | Aurora_static/Source/GUI/Button.cpp:110-128 | a Clicked button stays Clicked until a left release away from it |
| Buttons.ActivationTracksChange | Aurora_static/Source/GUI/Button.cpp:103-129 | activateCurrentState runs exactly when the state changes, except a release that stays Clicked |
| Buttons.Button.constructor | Aurora_static/Source/GUI/Button.cpp:8-19 | five state nodes attached in order, Idle shown, no text |
| Buttons.Button.ActivateCurrentState | Aurora_static/Source/GUI/Button.cpp:131-141 | exactly the current state's node has all switches on, all others off |
| Buttons.Button.Activate | Aurora_static/Source/GUI/Button.cpp:58-68 | the state follows OnActivate, the shown node follows the state, and the report says whether it realigned |
| Buttons.Button.ActivateText | Aurora_static/Source/GUI/Button.cpp:70-82 | afterwards there is a text node exactly when flag is set; alignment runs only when one was created; a created text is appended to the children; a detached text is removed at its position and left without a parent; in the no-op cases the child list is untouched |
| Buttons.Button.AttachChild | Aurora_static/Source/SceneNode.cpp:36-40 | attachChild on a button: the child is appended after the existing children and points back to the button's node, and the state nodes, the state and the text are kept |
| Buttons.Button.HandleEventCurrent | Aurora_static/Source/GUI/Button.cpp:103-115 | the state follows OnEvent and the shown node follows the state |
| Buttons.Button.UpdateCurrent | Aurora_static/Source/GUI/Button.cpp:117-129 | the state follows OnUpdate and the shown node follows the state |
| Textboxes.Edited | Aurora_static/Source/GUI/Textbox.cpp:129-150 | a printable character keeps the old text as a prefix and adds at most two characters; backspace on non-empty text drops exactly the last character; other codes change nothing |
| Textboxes.Toggled | Aurora_static/Source/GUI/Textbox.cpp:114 | a hidden caret becomes visible and a visible one hidden |
| Textboxes.TypingAppends | Aurora_static/Source/GUI/Textbox.cpp:133-144 | typing keeps the old text as a prefix, adds at most two characters and ends with the typed one |
| Textboxes.BackspaceUndoesTyping | Aurora_static/Source/GUI/Textbox.cpp:133-149 | backspace after a character typed on the same line restores the text |
| Textboxes.IgnoredCodes | Aurora_static/Source/GUI/Textbox.cpp:129-150 | backspace on empty text and unprintable codes change nothing |
| Textboxes.Textbox.constructor | Aurora_static/Source/GUI/Textbox.cpp:8-20 | an idle button whose children are the five state nodes, then the caret, then the text node; empty text, a full half-second timer and a visible caret |
| Textboxes.Textbox.CorrectCaretProperties | Aurora_static/Source/GUI/Textbox.cpp:55-70 | the blink timer restarts and the caret is fully visible |
| Textboxes.Textbox.WasActionConfirmed | Aurora_static/Source/GUI/Textbox.cpp:72-78 | reports a pending Return press once and clears it |
| Textboxes.Textbox.HandleEventCurrent | Aurora_static/Source/GUI/Textbox.cpp:118-154 | button transition, caret hidden on deselection, text edited only while selected, Return recorded only while selected; the button's node, state nodes, text node, child list and the caret's parent are kept |
| Textboxes.Textbox.UpdateCurrent | Aurora_static/Source/GUI/Textbox.cpp:107-116 | hover transition, then while selected the timer runs down and on expiry restarts and toggles the caret; the button's node, state nodes, text node, child list and the caret's parent are kept |
| Animations.AnimationData.constructor | Aurora_static/Source/Animation.h:19-24 | the frames, total duration and flags as given |
| Animations.AnimationData.AppendLoopback | Aurora_static/Source/Animation.cpp:143-145 | the frames become their loopback expansion |
| Animations.AnimationData.SetDurations | Aurora_static/Source/Animation.cpp:148-150 | every frame gets the same duration; rectangles and origins stay |
| Animations.Reversed | Aurora_static/Source/Animation.cpp:144-145 | position i holds the element at the mirrored position |
| Animations.Loopback | Aurora_static/Source/Animation.cpp:143-145 | 2n-1 frames for n >= 1, starting with the originals, reading the same both ways |
| Animations.FrameDuration | Aurora_static/Source/Animation.cpp:147 | the total split evenly over the frames, truncated toward zero |
| Animations.WithDuration | Aurora_static/Source/Animation.cpp:148-150 | every duration replaced, nothing else |
| Animations.ReachedEnd | Aurora_static/Source/Animation.cpp:157 | never at the end with repeat; without repeat, at the end exactly from the last index on; with no frames, `size() - 1` wraps, so the end lies at the largest size_t |
| Animations.Step | Aurora_static/Source/Animation.cpp:155-176 | time accumulates only while ongoing and not at the end; an advance resets it; the index stays in range and never decreases without repeat |
| Animations.StepAdvancesCyclically | Aurora_static/Source/Animation.cpp:162-169 | an advance moves to the next frame cyclically, and without repeat it never wraps |
| Animations.LastFrameNeverShownWithoutRepeat | Aurora_static/Source/Animation.cpp:157-160 | without repeat an advance never leaves from the last frame, so the sprite never gets it |
| Animations.Animation.constructor | Aurora_static/Source/Animation.cpp:9-17 | frame 0, no time, not ongoing, updating switched off for the node and its children |
| Animations.Animation.Start | Aurora_static/Source/Animation.cpp:31-34 | only the node's own update switch turns on |
| Animations.Animation.Stop | Aurora_static/Source/Animation.cpp:36-39 | only the node's own update switch turns off |
| Animations.Animation.Restart | Aurora_static/Source/Animation.cpp:41-47 | back to frame 0 with no time, switched on and ongoing |
| Animations.Animation.FinalizeAnimationSetup | Aurora_static/Source/Animation.cpp:140-153 | the frames are expanded when loopback is set and get equal durations; the sprite gets the current frame |
| Animations.Animation.UpdateCurrent | Aurora_static/Source/Animation.cpp:155-176 | the playback state follows Step; the sprite gets the index being left when the animation advances |
| Particles.Newborn | Aurora_static/Source/ParticleSystem.cpp:72-77 | the initializer's particle, moved to the emitter |
| Particles.Spawned | Aurora_static/Source/ParticleSystem.cpp:88-89 | one particle is added exactly when there is room or no limit |
| Particles.Age | Aurora_static/Source/ParticleSystem.cpp:91-94 | the affected particle with its lifetime shortened by dt |
| Particles.Aged | Aurora_static/Source/ParticleSystem.cpp:91-94 | every particle aged, in order |
| Particles.Expired | Aurora_static/Source/ParticleSystem.cpp:95-97 | only the front particle can go, exactly when its lifetime is used up |
| Particles.Alpha | Aurora_static/Source/ParticleSystem.cpp:58-59 | 255 times the remaining lifetime fraction, floored, and 0 when the fraction is not positive |
| Particles.AlphaAtMostOpaque | Aurora_static/Source/ParticleSystem.cpp:58-59 | with no more than the original lifetime left the alpha fits in a byte |
| Particles.Quad | Aurora_static/Source/ParticleSystem.cpp:56-65 | four vertices around the particle, each with its colour and the lifetime alpha |
| Particles.Quads | Aurora_static/Source/ParticleSystem.cpp:54-66 | four vertices per particle; slice 4i..4i+4 is particle i's quad |
| Particles.Vertices | Aurora_static/Source/ParticleSystem.cpp:47-66 | four vertices per particle, sized by the front particle |
| Particles.VertexOfParticle | Aurora_static/Source/ParticleSystem.cpp:54-66 | vertex 4i+k carries particle i's colour with its lifetime alpha |
| Particles.UpdateKeepsLimit | Aurora_static/Source/ParticleSystem.cpp:88-97 | with a limit, an update never takes the count above it |
| Particles.UpdateChangesAtMostOne | Aurora_static/Source/ParticleSystem.cpp:88-97 | an update adds at most one particle and removes at most one, and every particle after the front survives aged |
| Particles.LifetimesDecreaseByDt | Aurora_static/Source/ParticleSystem.cpp:91-94 | with an affector that keeps lifetimes, every lifetime drops by exactly dt |
| Particles.ParticleSystem.constructor | Aurora_static/Source/ParticleSystem.cpp:9-20 | no particles, emitter off at the origin, no initializer or affector, original lifetime 0 |
| Particles.ParticleSystem.SetInitializer | Aurora_static/Source/ParticleSystem.cpp:34-38 | the original lifetime is that of the particle the initializer returns on one call |
| Particles.ParticleSystem.SetAffector | Aurora_static/Source/ParticleSystem.cpp:40-43 | the affector is set, nothing else changes |
| Particles.ParticleSystem.SetMaxParticles | Aurora_static/Source/ParticleSystem.h:48 | the limit is set, nothing else changes |
| Particles.ParticleSystem.SetTexture | Aurora_static/Source/ParticleSystem.h:55 | the texture is set, nothing else changes |
| Particles.ParticleSystem.ActivateEmitter | Aurora_static/Source/ParticleSystem.h:58 | the emitter flag is set, nothing else changes |
| Particles.ParticleSystem.SetEmitterPosition | Aurora_static/Source/ParticleSystem.h:61 | the emitter position is set, nothing else changes |
| Particles.ParticleSystem.AddParticle | Aurora_static/Source/ParticleSystem.cpp:72-77 | the next initializer result is appended at the emitter |
| Particles.ParticleSystem.ComputeVertices | Aurora_static/Source/ParticleSystem.cpp:45-70 | with a non-zero original lifetime and some particles the array becomes Vertices, otherwise it is kept |
| Particles.ParticleSystem.AgeParticles | Aurora_static/Source/ParticleSystem.cpp:91-94 | the particles become Aged |
| Particles.ParticleSystem.UpdateCurrent | Aurora_static/Source/ParticleSystem.cpp:84-107 | only with emitter, initializer and affector: spawn, age, expire, rebuild; otherwise nothing changes |
| Resources.Loaded | Aurora_static/Source/ResourceHolder.inl:11-19 | a failed load changes nothing; a successful one adds exactly the new id and keeps every other entry |
| Resources.Unloaded | Aurora_static/Source/ResourceHolder.inl:41-48 | exactly the id is gone, every other entry is kept |
| Resources.UnloadUndoesLoad | Aurora_static/Source/ResourceHolder.inl:11-48 | unloading what a load added gives back the table of before |
| Resources.ResourceHolder.constructor | Aurora_static/Source/ResourceHolder.h:59 | an empty table |
| Resources.ResourceHolder.InsertResource | Aurora_static/Source/ResourceHolder.inl:79-84 | the id must be new; the table becomes Loaded with the resource |
| Resources.ResourceHolder.Load | Aurora_static/Source/ResourceHolder.inl:11-36 | the table becomes Loaded with the outcome of reading the file |
| Resources.ResourceHolder.Unload | Aurora_static/Source/ResourceHolder.inl:41-48 | the id must be present; the table becomes Unloaded |
| Resources.ResourceHolder.Get | Aurora_static/Source/ResourceHolder.inl:54-74 | the id must be present; its resource is returned |
| Resources.LoadUnloadRoundTrip | Aurora_static/Source/ResourceHolder.inl:11-48 | load then unload leaves the holder as it was |
| Resources.LoadThenGet | Aurora_static/Source/ResourceHolder.inl:11-61 | a successful load makes the resource available under its id |
| VertexNodes.Extent | Aurora_static/Source/VertexNode.cpp:95-107 | the size fold: never negative, (0, 0) with no vertices, and at least the last vertex's position |
| VertexNodes.ExtentIsMaximum | Aurora_static/Source/VertexNode.cpp:95-107 | the size is the componentwise maximum of the positions and 0, attained by a vertex unless it is 0 |
| VertexNodes.ExtentNotNegative | Aurora_static/Source/VertexNode.cpp:95-107 | the size is never negative |
| VertexNodes.Corners | Aurora_static/Source/VertexNode.cpp:26-29 | four white corners from the origin to the size, texture coordinates 0 |
| VertexNodes.CornersExtent | Aurora_static/Source/VertexNode.cpp:21-30 | a quad built from a size that is not negative measures that size |
| VertexNodes.Scaled | Aurora_static/Source/VertexNode.cpp:67-70 | positions scaled per axis, colours and texture coordinates kept |
| VertexNodes.MappedExtent | Aurora_static/Source/VertexNode.cpp:95-107 | mapping every coordinate by monotone maps fixing 0 maps the size the same way |
| VertexNodes.ScaledIsMapped | Aurora_static/Source/VertexNode.cpp:67-70 | modifySize applies x -> size * x / current on each axis |
| VertexNodes.ScaledExtent | Aurora_static/Source/VertexNode.cpp:64-71 | resizing by non-negative ratios scales the size by the same ratios |
| VertexNodes.ModifySizeReachesRequested | Aurora_static/Source/VertexNode.h:39-47 | a node with non-zero size measures exactly the requested size after modifySize |
| VertexNodes.MiddleStaysMiddle | Aurora_static/Source/VertexNode.h:41-42 | a vertex at the middle of the node stays at the middle after resizing |
| VertexNodes.Textured | Aurora_static/Source/VertexNode.cpp:89-92 | every vertex gets texture coordinates from its position; positions and colours stay |
| VertexNodes.QuadTexCoords | Aurora_static/Source/VertexNode.cpp:81-93 | a quad's corners map to (0,0), (w,0), (w,h), (0,h) of the rectangle's size; its left and top do not enter |
| VertexNodes.VertexNode.constructor | Aurora_static/Source/VertexNode.cpp:21-30 | one quad of the given size, no texture, empty texture rectangle |
| VertexNodes.VertexNode.GetSize | Aurora_static/Source/VertexNode.cpp:95-107 | the size fold Extent over the vertices |
| VertexNodes.VertexNode.SetFillColor | Aurora_static/Source/VertexNode.cpp:58-62 | every vertex takes the colour and nothing else changes |
| VertexNodes.VertexNode.ModifySize | Aurora_static/Source/VertexNode.cpp:64-71 | the vertices become Scaled by the requested over the current size |
| VertexNodes.VertexNode.SetTextureRect | Aurora_static/Source/VertexNode.cpp:81-93 | the rectangle is stored and the vertices become Textured |
| VertexNodes.VertexNode.SetTexture | Aurora_static/Source/VertexNode.cpp:73-79 | the whole texture becomes the texture rectangle |
| VertexNodes.ResizeQuad | Aurora_static/Source/VertexNode.cpp:21-71 | a quad resized to a non-negative size measures that size |
| Materials.OriginFor | Aurora_static/Source/MaterialNode.cpp:40-61 | Center puts the origin at the middle; any flags keep it inside bounds that are not negative |
| Materials.LeftTopHaveNoEffect | Aurora_static/Source/MaterialNode.cpp:40-61 | adding Left or Top to some flags never moves the origin |
| Materials.AxesAreIndependent | Aurora_static/Source/MaterialNode.cpp:45-58 | x depends only on the CenterX and Right bits, y only on the CenterY and Bottom bits |
| Materials.CentreWinsOverEdge | Aurora_static/Source/MaterialNode.cpp:47-55 | CenterX wins over Right and CenterY over Bottom; Right and Bottom give the far corner, Left and Top the near one |
| Materials.BothCentresAreCenter | Aurora_static/Source/MaterialNode.h:26-34 | CenterX together with CenterY gives the same origin as Center |
| Materials.AlignedPosition | Aurora_static/Source/MaterialNode.cpp:63-84 | Center puts the node at the target's middle |
| Materials.AlignmentIsPaddedOrigin | Aurora_static/Source/MaterialNode.cpp:63-84 | alignment is the origin the flags select in the target, moved inwards by the padding on non-centred axes |
| Materials.UnpaddedAlignmentIsOrigin | Aurora_static/Source/MaterialNode.cpp:63-84 | without padding a node is aligned at the point the same flags select as an origin |
| Materials.MaterialNode.constructor | Aurora_static/Source/MaterialNode.cpp:5-9 | flags Left and Top, no bounding-rectangle drawing |
| Materials.MaterialNode.SetOriginFlags | Aurora_static/Source/MaterialNode.cpp:40-61 | the origin becomes OriginFor of the flags and the local bounds, and the flags are stored |
| Materials.MaterialNode.SetRelativeAlignment | Aurora_static/Source/MaterialNode.cpp:63-84 | the position becomes AlignedPosition in the target's bounds; origin and flags stay |
| Materials.MaterialNode.CorrectOriginFlagProperties | Aurora_static/Source/MaterialNode.cpp:96-99 | the stored flags are applied again to the current bounds |
| Materials.CorrectionIsIdempotent | Aurora_static/Source/MaterialNode.cpp:96-99 | correcting twice gives the origin the first correction gave, which is OriginFor of the old flags and bounds; flags, position, bounds and the bounding-rectangle switch are kept |
| Sounds.ClampedVolume | Aurora_static/Source/Audio/SoundProperties.cpp:19-27 | always in [0, 100]; exact inside it; 0 below and 100 above |
| Sounds.ClampIsIdempotent | Aurora_static/Source/Audio/SoundProperties.cpp:19-27 | clamping a clamped volume changes nothing |
| Sounds.ClampIsMonotone | Aurora_static/Source/Audio/SoundProperties.cpp:19-27 | a louder request never gives a quieter volume |
| Sounds.GuardedDistance | Aurora_static/Source/Audio/SoundProperties.cpp:31 | never 0; 0 becomes 1 and any other value, negatives included, is kept |
| Sounds.Distance3DBounds | Aurora_static/Source/Audio/SoundProperties.cpp:32 | the 3-D distance is at least the 2-D one's magnitude, positive, and equal to it when the listener depth is 0 |
| Sounds.SoundProperties.constructor | Aurora_static/Source/Audio/SoundProperties.cpp:9-17 | attenuation, pitch and the flag verbatim; volume and distance through their setters; the invariant holds |
| Sounds.SoundProperties.SetVolume | Aurora_static/Source/Audio/SoundProperties.cpp:19-27 | the volume becomes ClampedVolume; the invariant is kept |
| Sounds.SoundProperties.SetMinDistance2D | Aurora_static/Source/Audio/SoundProperties.cpp:29-33 | the 2-D distance is guarded and the 3-D one is the root of d2 squared plus z squared, so it is at least the 2-D one's magnitude and positive |
| Sounds.SoundProperties.SetAttenuation | Aurora_static/Source/Audio/SoundProperties.h:92 | the attenuation is set, nothing else changes |
| Sounds.SoundProperties.SetPitch | Aurora_static/Source/Audio/SoundProperties.h:106 | the pitch is set, nothing else changes |
| Sounds.SoundProperties.SetRelativeToListener | Aurora_static/Source/Audio/SoundProperties.h:120 | the flag is set, nothing else changes |
| Sounds.SetVolumeTwice | Aurora_static/Source/Audio/SoundProperties.cpp:19-27 | setting a volume and then the stored volume again leaves the clamped first result, and every other property as it was |

## Left out

- Rendering: `draw`/`drawCurrent` only record which nodes are drawn; vertex arrays are never drawn and `MaterialNode`'s bounding-rectangle drawing is not modelled.
- Transforms: `getWorldTransform`, `getWorldPosition`, `getGlobalBounds` and the SFML `Transformable` base are not modelled. A MaterialNode's position and origin are plain fields, and its local bounds are a field standing for the virtual `getLocalBounds`.
- `Application`, `SpriteNode`, `Text`, `Math` and `Utils` are not part of this model. The `StateStack` calls that only forward to the application (`setFpsCap`, `getFps`, `setClearColor`, `getClearColor`) are left out for the same reason.
- `Animation::parseJsonFile` and the constructor that calls it: reading JSON files is I/O.
- `Animation::updateNodeProperties`: the sprite's texture rectangle and origin are not modelled; `displayed` records which frame index the sprite was last given.
- Animations.FrameDuration: the source divides the total as a `float` in seconds and converts back to whole microseconds. The model uses exact integer division truncated toward zero, so float rounding is not modelled.
- Animations.Animation.FinalizeAnimationSetup: requires the current index to be a valid frame. With no frames, the source divides by zero and reads `frames[0]`, which is undefined behaviour.
- Animations.Animation.UpdateCurrent: the 32-bit wrap of `current_rect_` is not modelled. It would need more than 2^32 frames.
- Copy constructors are not modelled: their value semantics are those of the fields. The exception is the Button's rule that a copy starts Idle unless Disabled (`CopiedState`).
- `MusicPlayer` and `SoundPlayer` are not modelled: they wrap the audio backend.
- Sounds.SoundProperties.SetMinDistance2D: the listener depth (global audio state) and `sqrtf` of d2² + z² are parameters. The square root comes with the precondition that it is one. `powf`/`sqrtf` rounding is not modelled.
- Sounds.ClampedVolume: exact real arithmetic instead of `float`.
- Particles.Alpha: exact rational arithmetic instead of `float`. The `Uint8` cast is not modelled: when a particle has more than its original lifetime left, the value can exceed 255 (the source's cast is then out of range). AlphaAtMostOpaque covers the in-range case.
- Particles.ParticleSystem.SetInitializer: the initializer, which usually draws random numbers, is modelled as the sequence of its results, one per call. The affector is a pure function of the particle and dt.
- `Particle::originalLifetime` (a pointer back to the system) and the vertex array's primitive type are not modelled.
- The ParticleSystem diagnostics printed to standard output are not modelled, and neither are the ResourceHolder's.
- VertexNodes.VertexNode.ModifySize: requires a size that is non-zero on both axes. The header forbids a (0, 0) size. A size that is zero on only one axis divides by zero in floating point, which the model does not represent.
- VertexNodes.VertexNode.SetTextureRect and VertexNodes.VertexNode.SetTexture: require a non-zero size for the same reason. For that reason the constructors from a texture are not modelled: they start from four vertices at (0, 0).
- The default `VertexNode` constructor and the one taking a primitive type and a vertex count are not modelled. Only the quad constructor is.
- Buttons.Button.ActivateCurrentState: `correctOriginFlagProperties` and `alignText` run on the Button's geometry, which is not modelled. Their effect is modelled in `Materials`. The report of whether alignment ran is what the Textbox needs.
- Whether the mouse is over a button and whether a typed character fits on the line or below are inputs. They come from the window and from font metrics.
- Textboxes.Textbox.constructor: the caret is a plain scene node in the button's tree. Its quad (a 2 by 30 VertexNode), its black fill and its position are not modelled.
- Textboxes.Textbox.CorrectCaretProperties: the caret's size and position follow the text's font metrics and are not modelled. Its alpha and timer are.
- StateStacks.StateStack.Propagate: requires that every entry the walk reaches holds a state. After a Remove of a state below the top, an entry with a null state stays on the stack (RemoveBelowBreaksNextFrame), and the source then dereferences null, which is undefined behaviour. The model has no such state.
- StateStacks.StateStack.HandleEvent: the same exclusion as Propagate. The null state that a Remove leaves behind is reached by `handleEvent` on the next frame, and the model does not describe that crash.
- StateStacks.StateStack.Update: the same exclusion as Propagate, for `update` on the next frame.
- StateStacks.StateStack.Draw: requires every entry to hold a state. After a Remove of a lower state this is false, and the source's `draw` dereferences the null entry.
- StateStacks.StateStack.CreateState: a registered factory is modelled as the state it creates, which is the same state every time.
- Resources.ResourceHolder.Load: reading the file is I/O. The outcome is a parameter.
- Event handling inside states other than the base `State` is modelled by what the stack sees: whether the walk goes on, and which requests were queued.
