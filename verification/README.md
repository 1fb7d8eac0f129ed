# Capsule documents, styles and layout in custom-browser

This project models the core of the custom-browser capsule pipeline.

- **The style enums.** `COAlignItems`, `COJustifyContent`, `COFlexDirection` and `CODimension`. Each carries its strum names (`as_ref` / `from_str`), its translation for the `stretch` flexbox solver and, for dimensions, its text form.
- **The style record.** `Styling` is held as a shared, mutable cell. Its dirty flag and the script-facing `StylingHandle` getters and setters are modelled with it.
- **The node tree.** `CapsuleObject` has children, events, an identifier, a style cell and computed geometry. It comes with `children_vec` and the pre-order traversal `iter_all_objects`.
- **The layout pass.** `compute_layout` mirrors the node tree into a solver arena under a window-sized root. It runs the solver and writes absolute geometry back into every node.
- **The dirty pass.** `update_layout` clears every set dirty flag below the root view. It recomputes the layout exactly when one was set.
- **The markup parser.** `parse_capsule`, `parse_capsule_view`, `parse_child` and `parse_capsule_meta` turn a `<capsule>` document into a `Capsule`.

## Modules

There is one module per source file.

| Module | File | Models |
|---|---|---|
| `Align` | `align.dfy` | `src/layout/capsule/align.rs` |
| `Justify` | `justify.dfy` | `src/layout/capsule/justify.rs` |
| `FlexDir` | `flexdir.dfy` | `src/layout/capsule/flexdir.rs` |
| `Dimension` | `dimension.dfy` | `src/layout/capsule/dimension.rs` |
| `Style` | `styling.dfy` | `src/layout/styling.rs` |
| `Obj` | `obj.dfy` | `src/capsule/obj.rs` |
| `Computer` | `computer.dfy` | `src/layout/computer.rs` |
| `Dirty` | `dirty.dfy` | `src/layout/dirty.rs` |
| `Parser` | `parser.dfy` | `src/capsule/parser.rs` |

Supporting modules:
- `Wrappers` holds `Option`, `Result` and `Outcome`.
- `Strum` holds the snake_case naming rule.
- `Flexbox` holds the part of the `stretch` crate the layout uses: style types, a node arena class and the solver as a host-supplied function.
- `Xml` holds the parsed document tree as `roxmltree` presents it.

## How the model is built

- **The node tree is a class.** Each node's style cell (`Styling`) and computed geometry are updated in place, as in the source. The tree structure is fixed at creation, because the core only appends children while building a node.
- **A ghost `NodeValue` captures a tree's contents.** It is the tree's structure, identifiers, events and style records. The parser's object-building methods are proved against value-level specification functions: `ChildTree`, `ChildTrees`, `ViewTree`, `ParseCapsuleMeta` and `CapsuleTree`.
- **Panics become errors.** Every `panic!`, `assert!` and failing `unwrap` of the parser is a `Failure` carrying a `ParseError`. The code panics on a bad `align` or `justify` keyword (src/capsule/parser.rs:54, 66), on an unknown tag (src/capsule/parser.rs:102) and on a `text` element without text (the `unwrap`s at src/capsule/parser.rs:71 and 97). Only a `width` or `height` that does not parse as a number is ignored, with a warning (src/capsule/parser.rs:76-90).

## Where the code's intent was followed

Some lines of the core would not type-check as written. Where that happens, the model uses the evident intent.

- `src/layout/dirty.rs:18` writes `false` to a `dirty` field that `CapsuleObjectBase` does not have. The model clears the node's style flag, as `set_non_dirty` does (`src/capsule/obj.rs:39-41`).
- `src/layout/computer.rs:21-28` reads `flex_direction` and unwraps optional enums on `Styling`, whose fields are `flexdir` and the `CO…` enums. The model translates each field with its `as_stretch`, and an unset size becomes `Auto`.
- `src/capsule/parser.rs:48-90` stores `stretch::style` values in `CO…` fields. The model stores the `CO…` variant of the same name.
- `src/capsule/parser.rs:96-101` calls the `CSText` and `CSObj` constructors with a children/style argument list. The model creates the node with no identifier and no events.
- `Capsule.view` is a `CSView`, while `parse_capsule_view` returns a `CapsuleView`. Both are the root view node here.

## Model

| member | source | states |
|---|---|---|
| `Align.AsStretch` | src/layout/capsule/align.rs:21-29 | Each variant goes to the solver variant of the same name, and only that one. |
| `Align.AsRef` | src/layout/capsule/align.rs:5-17 | Every derived name is a snake_case word sequence. |
| `Align.FromStr` | src/layout/capsule/align.rs:5-17 | Whatever parses is the name of the variant it gives. |
| `Align.FromStrAsRef` | src/layout/capsule/align.rs:5-17 | Parsing a variant's name gives that variant back. |
| `Align.FromStrAccepts` | src/layout/capsule/align.rs:5-17 | A string parses exactly when it is some variant's name. |
| `Align.AsStretchBijective` | src/layout/capsule/align.rs:19-30 | `as_stretch` is injective and reaches every solver variant. |
| `Justify.AsStretch` | src/layout/capsule/justify.rs:22-31 | Each variant goes to the solver variant of the same name, and only that one. |
| `Justify.AsRef` | src/layout/capsule/justify.rs:5-18 | Every derived name is snake_case. |
| `Justify.FromStr` | src/layout/capsule/justify.rs:5-18 | Whatever parses is the name of the variant it gives. |
| `Justify.FromStrAsRef` | src/layout/capsule/justify.rs:5-18 | Parsing a variant's name gives that variant back. |
| `Justify.FromStrAccepts` | src/layout/capsule/justify.rs:5-18 | A string parses exactly when it is some variant's name. |
| `Justify.AsStretchBijective` | src/layout/capsule/justify.rs:20-32 | `as_stretch` is injective and reaches every solver variant. |
| `FlexDir.AsStretch` | src/layout/capsule/flexdir.rs:20-27 | Each variant goes to the solver variant of the same name, and only that one. |
| `FlexDir.AsRef` | src/layout/capsule/flexdir.rs:5-16 | Every derived name is snake_case. |
| `FlexDir.FromStr` | src/layout/capsule/flexdir.rs:5-16 | Whatever parses is the name of the variant it gives. |
| `FlexDir.FromStrAsRef` | src/layout/capsule/flexdir.rs:5-16 | Parsing a variant's name gives that variant back. |
| `FlexDir.FromStrAccepts` | src/layout/capsule/flexdir.rs:5-16 | A string parses exactly when it is some variant's name. |
| `FlexDir.AsStretchBijective` | src/layout/capsule/flexdir.rs:18-28 | `as_stretch` is injective and reaches every solver variant. |
| `Dimension.AsStretch` | src/layout/capsule/dimension.rs:17-24 | The solver dimension has the same variant and the same payload. |
| `Dimension.AsText` | src/layout/capsule/dimension.rs:27-34 | `undefined` and `auto` are keywords, a number is its rendering, and a percentage is the rendering of 100 times its value followed by `%`. |
| `Dimension.AsStretchInjective` | src/layout/capsule/dimension.rs:17-24 | Distinct dimensions give distinct solver dimensions. |
| `Dimension.AsTextPercentSuffix` | src/layout/capsule/dimension.rs:27-34 | A text ends in `%` exactly when the dimension is a percentage. |
| `Dimension.NumberIsNoKeyword` | src/layout/capsule/dimension.rs:27-34 | A rendered number or percentage is never `undefined` or `auto`. |
| `Dimension.AsTextDeterminesVariant` | src/layout/capsule/dimension.rs:27-34 | Equal texts come from dimensions of the same variant. |
| `Style.DefaultStylingIsClean` | src/layout/styling.rs:48-62 | The default record is clean, has no size or colour, uses the default font size and each enum's `#[default]`. |
| `Style.Styling.Default` | src/layout/styling.rs:48-62 | A new cell holds the default record. |
| `Style.Styling.IsDirty` | src/layout/styling.rs:34-37 | The result is the record's dirty flag. |
| `Style.Styling.SetDirty` | src/layout/styling.rs:39-41 | The flag is raised and no other field changes. |
| `Style.Styling.SetNonDirty` | src/layout/styling.rs:43-45 | The flag is cleared and no other field changes. |
| `Style.StylingHandle.Write` | src/layout/styling.rs:67-73 | Taking the writer marks the record dirty and changes nothing else. |
| `Style.StylingHandle.GetWidth` | src/layout/styling.rs:78-85 | The result is nil exactly when no width is set; otherwise it is the width's text. |
| `Style.StylingHandle.SetWidth` | src/layout/styling.rs:87-91 | The width becomes the parsed value (a string that does not parse clears it) and the record is dirty. |
| `Style.StylingHandle.GetHeight` | src/layout/styling.rs:93-100 | The result is nil exactly when no height is set; otherwise it is the height's text. |
| `Style.StylingHandle.SetHeight` | src/layout/styling.rs:102-105 | The height becomes the parsed value and the record is dirty. |
| `Style.StylingHandle.GetAlign` | src/layout/styling.rs:107-111 | The name parses back to the stored alignment. |
| `Style.StylingHandle.SetAlign` | src/layout/styling.rs:113-117 | An unknown name fails with nothing changed; a known one is stored, the record is dirty, and the getter returns the name. |
| `Style.StylingHandle.GetJustify` | src/layout/styling.rs:119-123 | The name parses back to the stored justification. |
| `Style.StylingHandle.SetJustify` | src/layout/styling.rs:125-131 | An unknown name fails with nothing changed; a known one is stored and the record is dirty. |
| `Style.StylingHandle.GetFontSize` | src/layout/styling.rs:133-135 | The result is the stored font size. |
| `Style.StylingHandle.SetFontSize` | src/layout/styling.rs:137-140 | The font size is stored and the record is dirty. |
| `Style.StylingHandle.GetColor` | src/layout/styling.rs:142-149 | The result is nil exactly when no colour is set; otherwise it is the colour's name. |
| `Style.StylingHandle.SetColor` | src/layout/styling.rs:151-154 | The colour becomes the parsed value and the record is dirty. |
| `Style.StylingHandle.GetFlexDir` | src/layout/styling.rs:156-160 | The name parses back to the stored direction. |
| `Style.StylingHandle.SetFlexDir` | src/layout/styling.rs:162-168 | An unknown name fails with nothing changed; a known one is stored and the record is dirty. |
| `Obj.CapsuleObject.constructor` | src/capsule/obj.rs:78-88 | The node takes the context's identifier, children, events and style, and zero geometry. Over valid, disjoint subtrees it is a valid tree. |
| `Obj.CapsuleObject.BoundingBox` | src/capsule/obj.rs:24-29 | The box is the node's computed position and size. |
| `Obj.CapsuleObject.IsDirty` | src/capsule/obj.rs:31-33 | The result is the node's own style flag. |
| `Obj.CapsuleObject.SetDirty` | src/capsule/obj.rs:35-37 | Only the node's own flag is raised. |
| `Obj.CapsuleObject.SetNonDirty` | src/capsule/obj.rs:39-41 | Only the node's own flag is cleared. |
| `Obj.CapsuleObject.ChildrenVec` | src/capsule/obj.rs:90-100 | The snapshot has the children, in order. |
| `Obj.Recurse` | src/capsule/obj.rs:142-153 | The callback sees the node, then the pre-order walk of its children. |
| `Obj.IterAllObjects` | src/capsule/obj.rs:137-160 | The callback sees the pre-order walk below the root view. |
| `Obj.IterAllObjectsVisitsEachOnce` | src/capsule/obj.rs:137-160 | Every node below the root view is visited, exactly once; the root view is never visited. |
| `Obj.WalkSubtreeFollows` | src/capsule/obj.rs:142-153 | In pre-order, every visited node is immediately followed by the walk of its own subtree. |
| `Obj.WalkCovers` | src/capsule/obj.rs:142-153 | The walk meets exactly the nodes of the subtrees. |
| `Obj.WalkDistinct` | src/capsule/obj.rs:142-153 | The walk meets no node twice when sibling subtrees share no node. |
| `Obj.Capsule.Default` | src/capsule/obj.rs:109-114 | A capsule starts with empty metadata and an empty, clean root view. |
| `Computer.StylingToStretch` | src/layout/computer.rs:18-31 | An unset width or height becomes `Auto` and a set one is translated. Align, justify and direction are translated by their `as_stretch`. |
| `Computer.StylingToStretchExact` | src/layout/computer.rs:18-31 | Two records give the same solver style iff they agree on align, justify, direction and effective size (unset counts as auto). |
| `Computer.DefaultStylingToStretch` | src/layout/computer.rs:18-31 | An untouched style gives the solver's default style. |
| `Computer.BuildNode` | src/layout/computer.rs:33-50 | The arena grows by exactly the nodes `Built` lists for the subtree's value: the children's nodes first, in order, then the node itself, whose id is returned. The layouts do not change. |
| `Computer.BuiltMirrors` | src/layout/computer.rs:33-50 | The node built last mirrors the subtree (translated style, children one for one, in order), the nodes already in the arena stay as they were, and an arena whose child ids all point inside it stays so. |
| `Computer.BuildChildren` | src/layout/computer.rs:40-47 | The arena grows by exactly the nodes `BuiltAll` lists for the children's values, and the returned ids are the ones it lists, in order. |
| `Computer.BuiltAllMirrors` | src/layout/computer.rs:40-47 | The ids of the built children mirror the children's values, in order, and nodes already in the arena stay as they were. |
| `Computer.BuildRoot` | src/layout/computer.rs:84-105 | The arena grows by exactly `RootArena` of the root view's children: their nodes in order, then the window-sized column root, whose id is returned. The layouts do not change. |
| `Computer.RootArenaMirrors` | src/layout/computer.rs:84-105 | In an arena built from empty, the root's children mirror the root view's children, and every child id points inside the arena. |
| `Computer.ApplyLayout` | src/layout/computer.rs:52-82 | Every node of the subtree carries its solver geometry, offset by its parent's absolute position. Children are paired with arena children as `zip` pairs them. |
| `Computer.ApplyToChild` | src/layout/computer.rs:79-81 | One child is placed and the siblings already placed stay placed. |
| `Computer.ApplyToRootChildren` | src/layout/computer.rs:111-113 | Every child of the root view that `zip` pairs with a root-node child is placed from the origin. The root view's own geometry and every node's value are unchanged. |
| `Computer.ComputeLayout` | src/layout/computer.rs:84-114 | The arena is exactly the one built from the tree's values under the window root, and it mirrors the tree. The layouts are the solver's for that arena, and every node below the root view is placed from the origin. The root view's own geometry is untouched. |
| `Computer.PlacedAlike` | src/layout/computer.rs:52-82 | Two subtrees with equal values, placed from the same mirroring arena node with the same layouts and parent position, get the same geometry node for node. |
| `Computer.LaidOutArena` | src/layout/computer.rs:84-109 | Two views whose nodes carry the same values are laid out on the same arena, root and layouts. |
| `Computer.LayoutDeterministic` | src/layout/computer.rs:84-114 | The layout pass depends only on the tree's values: two such views get the same arena, root and layouts, and every node below them the same geometry, whatever it held before. |
| `Dirty.ScanAndClear` | src/layout/dirty.rs:13-21 | The result is true iff some visited flag was set. Every visited flag ends clear with no other field changed. Only set cells are written. |
| `Dirty.ScanDescendants` | src/layout/dirty.rs:12-22 | The result is true iff some node below the root view was dirty, and afterwards none is. |
| `Dirty.UpdateLayout` | src/layout/dirty.rs:9-27 | All flags below the root view end clear. The layout is recomputed iff one was set, and otherwise no geometry changes. The root view's geometry is untouched, and so is its flag when its cell is not shared. |
| `Dirty.UpdateLayoutTwice` | src/layout/dirty.rs:9-27 | The pass is idempotent: a second pass right after the first finds nothing to do. |
| `Xml.Attribute` | src/capsule/parser.rs:47 | A value is present exactly when the element has that attribute. |
| `Xml.NodeText` | src/capsule/parser.rs:34 | An element's text is its first child's text when that child is a text node, and nothing otherwise. |
| `Parser.ParseAlign` | src/capsule/parser.rs:47-56 | What is accepted is the keyword of the variant it gives. |
| `Parser.AlignKeywords` | src/capsule/parser.rs:47-56 | Exactly the five align keywords are accepted, each naming its own variant. |
| `Parser.AlignVocabularies` | src/capsule/parser.rs:47-56 | The markup and strum names agree only on the one-word variants, and each rejects the other's `flex…` spelling. |
| `Parser.ParseJustify` | src/capsule/parser.rs:58-68 | What is accepted is the keyword of the variant it gives. |
| `Parser.JustifyKeywords` | src/capsule/parser.rs:58-68 | Exactly the six justify keywords are accepted, each naming its own variant. |
| `Parser.JustifyVocabularies` | src/capsule/parser.rs:58-68 | Only `center` is spelled alike in the markup and by strum. |
| `Parser.SizeAttribute` | src/capsule/parser.rs:76-90 | A size is present exactly when the attribute exists and parses as a number n, and it is then `Points(n)`. A missing or unparseable attribute gives nothing. |
| `Parser.ElementStyleMeaning` | src/capsule/parser.rs:45-90 | The style fails exactly on a bad align or justify keyword, or a text element without text, and align is checked first. An explicit size beats the size measured at the default font size. Every other field keeps its default and the record is clean. |
| `Parser.ParseStyle` | src/capsule/parser.rs:45-90 | The new cell holds exactly the specified style, or the method fails with the specified error. |
| `Parser.ChildTree` | src/capsule/parser.rs:27-104 | Text gives no node, an element that succeeds gives a node, and a tag other than `text`/`obj` is an error. |
| `Parser.ChildTreeMeaning` | src/capsule/parser.rs:27-104 | Errors in order: children, then style, then unknown tag. A `text` element gives a text node with its text, `obj` gives a container, and both hold the parsed children and style. |
| `Parser.ChildTrees` | src/capsule/parser.rs:36-43 | There are never more nodes than children. |
| `Parser.ChildTreesFailed` | src/capsule/parser.rs:36-43 | A failure among the first children is the failure of all of them. |
| `Parser.ChildTreesInOrder` | src/capsule/parser.rs:36-43 | The nodes are the element children's nodes, one for one, in document order. |
| `Parser.ChildTreesFailure` | src/capsule/parser.rs:36-43 | The children fail iff one of them does, and then with the first failing child's error. |
| `Parser.ChildTreeClean` | src/capsule/parser.rs:27-104 | A parsed node and everything below it are clean. |
| `Parser.ChildTreesClean` | src/capsule/parser.rs:36-43 | Every parsed child subtree is clean. |
| `Parser.ParseChild` | src/capsule/parser.rs:27-104 | The result is the object tree of the specified node, or fails with the specified error. |
| `Parser.NewChild` | src/capsule/parser.rs:92-103 | The tag picks the node kind over the parsed children and style, and an unknown tag fails. |
| `Parser.ParseChildren` | src/capsule/parser.rs:36-43 | The objects are the specified nodes in order, as disjoint valid trees, or the first child's error. |
| `Parser.ParseNextChild` | src/capsule/parser.rs:38-43 | One more child: fails exactly when the specification fails at that child, with its error; otherwise the objects so far, plus the child's node if it yields one, are disjoint valid trees describing the specified prefix, and every new cell is freshly allocated. |
| `Parser.ParseCapsuleView` | src/capsule/parser.rs:106-117 | A `view` element gives a root view over its parsed children; anything else is an error. |
| `Parser.FirstTagged` | src/capsule/parser.rs:18 | The position found is the first with that tag. |
| `Parser.ParseCapsuleMeta` | src/capsule/parser.rs:14-23 | An element other than `meta` is an error, and the only other error is a textless `title`. No script is ever collected. |
| `Parser.MetaWithoutTitle` | src/capsule/parser.rs:13-23 | Without a `title` child, the metadata is the default. |
| `Parser.MetaTitle` | src/capsule/parser.rs:13-23 | The title is the first `title` child's text, and a first `title` without text is an error. |
| `Parser.CommentInMetaAccepted` | src/capsule/parser.rs:16-20 | A comment before the `title` of `meta` is skipped by the search for the title, and the title is still read. |
| `Parser.CommentFirstInTitle` | src/capsule/parser.rs:18-20 | A comment as the first child of `title` hides the text, so the `unwrap` fails (`MissingText`). |
| `Parser.CapsuleShape` | src/capsule/parser.rs:124-133 | An accepted document has a `capsule` root whose element children are all `meta` or `view`. |
| `Parser.CommentInObjRejected` | src/capsule/parser.rs:94-103 | A comment node is an unknown tag, and a `view`, `obj` or `text` element holding one fails with that error. |
| `Parser.CommentAtRootRejected` | src/capsule/parser.rs:128-140 | A comment directly below the root fails as a child that is neither `meta` nor `view`. |
| `Parser.CapsuleLastWins` | src/capsule/parser.rs:128-140 | The last `view` and the last `meta` win; when one is absent, its default stays. |
| `Parser.CapsuleClean` | src/capsule/parser.rs:119-143 | Nothing in a parsed capsule's view is dirty. |
| `Parser.ParseRootChild` | src/capsule/parser.rs:128-140 | One child of the root updates the capsule as specified, or fails with the specified error. |
| `Parser.ParseCapsule` | src/capsule/parser.rs:119-143 | The capsule holds exactly the specified metadata and view tree, or fails with the specified error. |

## Left out

- Reading markup text (`roxmltree::Document::parse`): the model starts from the parsed tree. A comment or processing instruction is modelled as an element with the empty tag name (`Parser.COMMENT`), which is what `tag_name().name()` gives for it. Inside a `view`, `obj` or `text` element it is an unknown node (src/capsule/parser.rs:102), and below the root it is neither `meta` nor `view` (src/capsule/parser.rs:133); both are errors in the model. Inside `meta` the search for `title` skips it (src/capsule/parser.rs:18), and as the first child of `title` it hides the text. Attribute order, namespaces and source positions are not modelled.
- Logging is not modelled: the `log::trace!` for skipped text (src/capsule/parser.rs:29) and the `log::warn!` for a bad width or height (src/capsule/parser.rs:80, 88). The model only keeps their effect, which is that nothing changes.
- `str::parse::<f32>` and `measure_text` are host functions (`ParseHost`). Number formatting, colour names, `try_parse_dimension` and `try_parse_color` are also host functions (`ScriptHost`). f32 values are reals, and rounding, infinities and NaN are not modelled.
- The value of `DEFAULT_TEXT_SIZE`: renderer/constants.rs is not part of this model, so the constant is left open.
- `COColor` (layout/capsule/color.rs) is not part of this model. It is a plain record here.
- The `stretch` solver itself is a host function from the arena to layouts. Its `unwrap`s never fail in the model.
- Concurrency and locking are not modelled: the `RwLock`s, the `ConcurrentVec` appends and the deadlocks noted in the script bridge. Each operation is one sequential step.
- The Lua engine is not modelled: `run_scripts` and the script bridge's registration. Rendering (`render`) is not modelled either.
- `CapsuleMeta.scripts` is never filled by the parser, so it is always empty.
- Parser.ParseCapsuleView: builds the root view with its children at once, where the source pushes them into a default view after creation. The resulting tree is the same.
- Dirty.UpdateLayout: states the root view's flag is unchanged only when its style cell is not also a descendant's, since nothing in the model forbids sharing a cell.
- Style.StylingHandle.SetFontSize: takes a value that is already a `u16`. The script bridge's conversion of the script value, which can fail before the setter runs (src/layout/styling.rs:137), is not modelled.
- Obj.CapsuleObject.constructor: a node's identifier is fixed at creation. The source keeps it in a writable field (src/capsule/obj.rs:46, 85), but nothing in the modelled core writes it after creation.
- Obj.CapsuleObject.constructor: a node's children are fixed at creation. Appending to a live node's children after creation is not modelled, because the core never does it.
