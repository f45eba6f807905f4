# Rodeo: scheduler, mesh codec, file patches and script transport in Dafny

Rodeo runs Luau scripts in Roblox Studio: a client submits a script, a master routes it to a
Studio data model (a DOM) that a backend reports, and results stream back. This project models
the four parts of it whose behaviour is open-ended, and proves what each is for.

- **The master and its clients.** `Scheduler`, `Targets` and `Route` give the master's state
  (backend snapshots, pending queue, active runs, recorded target modes, one message log per run
  client) and the functions its handlers compute. `Master` has every locked handler as a function
  and as a method of the class `MasterState`, whose loops run in the handler's own order.
  `MasterRuns`, `MasterTheorems`, `MasterQueue`, `MasterTargets` and `MasterWitnesses` are about
  all sequences of handlers from start-up, `TargetOrder` about the hash maps' iteration order.
  `RunClient` is the client's event loop with its concurrently served calls; `EndToEnd` composes
  a channel of the master with that loop.
- **What the master's steps do, told by events.** `Routing` says which DOM a run goes to and which
  backend hears what is sent to a DOM. `MasterSteps`, `MasterEffects`, `MasterMessages`,
  `MasterOutbox` and `MasterBroadcasts` say what any step of a run of the master does to the
  backends and the queue, to the active runs, to each client's channel, to what goes out to DOMs
  and to the recorded and told target modes, each in terms of the event and of queue, snapshots
  and records before it; `MasterShapes` prepares them. `MasterHistory` puts the steps of a run
  together: where every message on a channel comes from, and every script and kill. `RunResults`
  says what the client's one result holds, in terms of the events of its stream.
- **Meshes.** `MeshCodec` is the binary blob's printer and parser, `MeshLayout` the bytes of the
  blob, field by field, and the two operations; `MeshMatrix` the 4x4 matrices and exported
  skeletons, `MeshRotation` the quaternions they are written with, `MeshMotion` what both do to
  points; `BoneNames`, `JointOrder` and `GltfReader` the naming, ordering and merging of the glTF
  reader, `GltfParts` the whole of it, told by the file; `ObjReader` the OBJ reader's corners and
  their merging, `ObjFaces` the whole of it, told by the lines.
- **File patches.** `FilePatch` is rename-as-backup with lock claiming and a stale sweep, where a
  crash or an I/O error may stop an operation between any two file-system steps; `PatchRuns` is
  about all sequences of operations, deaths and outside writes; `Fflags` builds fast-flag patches on it.
- **Script transport.** `Utf8` (section 3 of RFC 3629) and `Transport`: a script cut into chunks at
  character boundaries, reassembled by the master, and cut again for the plugin.

`Options`, `Finite` and `Numerals` hold shared helpers.

## Where the code does less than one would hope

Each of these is a proved fact with its exact condition.

- *A vanished run can look like success.* A FilesComplete for an active run that is not profiled
  puts a bare Complete on its channel, with no word on how the run ended. This is the only way:
  `NeverVanishesIff` says a run of the master keeps every unprofiled channel honest exactly when no
  such FilesComplete occurs, `FilesCanComeTooEarly` exhibits one, and `BareIsTakenForSuccess` shows
  that the client then exits with 0. The shipped backend sends FilesComplete for profiled runs
  only (rodeo-cli/src/studio_backend/backend.rs:290-326), so the input takes a backend that
  reports a run it never profiled; the master does not check.
- *A studio stays driven after the client that drove it left.* A departing client's queued run is
  removed without a reconciliation, so the studio stays recorded, and told, to run. `CurrentIff`
  says exactly which steps leave the records out of date, `StudioStaysDriven` exhibits one.
- *A target can depend on a hash map's order.* An identifier leads to the group of the last DOM
  that carries it; when two DOMs of one session are in two groups (one has no studio id yet),
  which of them a scoped run drives depends on the order. `OrderDecides` shows it,
  `TargetStableIff` gives the exact condition.
- *An exit code can lose a race.* The client reads a requested exit code when the ending arrives,
  before it awaits the calls; a call received earlier but served later is too late.
  `ExitDecides` says what the result can be, `RacingExit` reaches both outcomes on one stream.
- *A patch can stay for good.* Where there was no file, a restore ignores that deleting the patched
  one failed and takes away the lock that knew. `StepKeepsIff` says this is the only operation that
  breaks consistency, `AlwaysSafeIff` that originals which exist and are not empty are safe from it.
- *A bone that is not rigid loses its pose.* Nodes are written as a translation and a unit
  quaternion, so a scaled or sheared joint comes back in another pose (`StretchedBoneLost`);
  `PosesKeptIff` says that nothing else does.
- *A script in one message is never measured.* The master's ceiling is on chunks; `OverCeilingIff`.
- *A zero-byte original is lost.* A zero-length lock stands for "no original", so an empty original
  file is deleted when its lock is claimed or swept. `SafeIff` says the protocol keeps an original,
  if deletions work, exactly when it is not empty; a lock nobody claimed still restores it (`UnclaimedRestores`).
- *A queued run can outlive its session.* Backend loss reconciles only through the runs it orphans;
  with none, a queued run whose session left with the backend waits for the next reconciliation.
  `SessionsLiveIff` gives the condition, `DeadSessionsCanWait` a run that ends there.
- *A weight accessor that is too short* gives a skinned mesh whose own blob is refused, and so do
  counts of 2^32 or more, where the reader's 32-bit indices wrap. `GltfReader.ReaderStreamsIff`,
  `ObjReader.ReaderStreamsIff` and `ObjReader.IndicesTrueIff` are exact about both, and
  `GltfParts.ShortWeights` reads such a file.

## Reading the model

- An f32 is a 32-bit word in the codec and the readers, and a real number in the matrix code, so
  rounding is not modelled, and a square root is any function that is one. 32-bit index
  arithmetic wraps as in the source.
- Each master handler runs under one lock and is one step. Backends stand in the iteration order of
  the map that holds them: arbitrary, reshuffled when one registers, fixed in between. Orphans are
  swept in any order. A client channel has a number that is never used again; a run id is fresh only
  among live runs, as the source promises. What goes out to backends is a multiset.
- A directory is its target and its locks. `life` is how many file-system steps an operation still
  gets, and a write counts one step per byte; a failed step ends the operation as the source's `?`
  does, and a `Luck` says whether the deletions go through whose failure the source ignores. Whole
  operations do not overlap.
- The client's `select!` is a nondeterministic choice, and a call is the list of effects it still
  has to perform, interleaved freely with the loop.
- Clocks, process liveness, directory order, minted ids, JSON text and polygon triangulation are
  parameters. A triangulator is assumed to return corners of its polygon, three to a triangle.

## Model

| member | source | states |
|---|---|---|
| `Utf8.ValidIff` | rodeo-client/src/run.rs:162-166 | what counts as valid text is exactly the encodings of characters: shortest forms, no surrogates, nothing above 10FFFF |
| `Utf8.BoundaryIff` | rodeo-client/src/run.rs:162-166 | the byte test that stops the back-off holds at a position exactly when both sides of it are valid UTF-8 |
| `Utf8.BoundaryWithinFour` | rodeo-client/src/run.rs:163-165 | the back-off stops after at most three bytes, so a chunk of at least four bytes is never empty |
| `Transport.SplitScript` | rodeo-client/src/run.rs:156-170 | the loop ends with pieces each cut at the last character boundary within the size, for every valid script |
| `Transport.CutUpMeans` | rodeo-client/src/run.rs:156-170 | such pieces concatenate to the script, each is valid UTF-8 within the size, none is empty, and there is one alone exactly when the script fits |
| `Transport.CutUpUnique` | rodeo-cli/src/master/mod.rs:446-458 | the cut is determined by the script, so the client's and the master's cuts agree |
| `Transport.Submit` | rodeo-client/src/run.rs:136-182 | a script is refused exactly when it has more than 268,435,456 bytes; otherwise it is cut at 8,000,000, the first piece goes with the submit, the others follow as chunks in order, the last one alone flagged, and `continues` says whether there are any |
| `Transport.Reassemble` | rodeo-cli/src/master/grpc.rs:383-410 | the loop reads chunks up to the flagged one and gives what the specification of a whole stream gives, error cases included |
| `Transport.AssembleInvertsCutUp` | rodeo-cli/src/master/grpc.rs:383-410 | reassembling any cut-up script within the ceiling gives back the script and takes no message after its last chunk |
| `Transport.AssembleIff` | rodeo-cli/src/master/grpc.rs:387-410 | chunks are accepted exactly when they go up to one flagged chunk and with the head are within the ceiling; the script is then all of them, in order |
| `Transport.AssembleRefuses` | rodeo-cli/src/master/grpc.rs:387-410 | a stream is refused exactly where, after unflagged chunks within the ceiling, it ends, goes on with another message, or with a chunk that is over the ceiling; the error says which |
| `Transport.AssembleWithinCeiling` | rodeo-cli/src/master/grpc.rs:392-397 | so a script that comes in chunks is within the ceiling, whatever a client streams, and nothing behind the flagged chunk is read |
| `Transport.OverCeilingIff` | rodeo-cli/src/master/grpc.rs:387-412 | a script comes out over the ceiling exactly when it came over the ceiling in one unchunked submit |
| `Transport.BuildRunCommand` | rodeo-cli/src/master/mod.rs:446-492 | the plugin is sent the pieces of the same cut at 8,000,000 bytes: the first in the command, the others as chunks in order, the last one alone flagged, and is told to expect more exactly when there is more |
| `Transport.TransportScript` | rodeo-cli/src/master/grpc.rs:383-410 | end to end, every script within the ceiling arrives unchanged, and the plugin gets the client's own pieces |
| `MeshCodec.PutName` | rodeo-client/src/runtime/mesh.rs:164-167 | from an aligned position, padding the whole output is padding the name alone, and leaves it aligned |
| `MeshLayout.EncodeBlob` | rodeo-client/src/runtime/mesh.rs:140-170 | for any mesh the growing byte vector ends as the bytes of the layout: magic, version, counts low byte first, flag bits 1, 2, 4, 8 for normals, UVs, colors and skin, every component of every row at its offset, every bone with its padding, zeros where nothing is meant, and no more |
| `MeshLayout.EncodeIff` | rodeo-client/src/runtime/mesh.rs:12-29 | bytes are the blob of a mesh exactly when every field of the layout holds what the mesh has, at its offset, what means nothing is zero, and the length is that of the last bone's end |
| `MeshCodec.Cursor.Take` | rodeo-client/src/runtime/mesh.rs:175-183 | gives the next n bytes and moves past them, or reports truncation exactly when fewer are left |
| `MeshCodec.Cursor.ReadAttributes` | rodeo-client/src/runtime/mesh.rs:212-224 | reads the vertex arrays the flags announce, each of the vertex count, and ends where the last one ends |
| `MeshCodec.Cursor.ReadBone` | rodeo-client/src/runtime/mesh.rs:233-244 | reads one bone and its padding, or refuses truncation, bad UTF-8 or a parent that does not come earlier |
| `MeshCodec.Cursor.ReadBones` | rodeo-client/src/runtime/mesh.rs:231-245 | reads the bones one after the other, or gives the first one's error |
| `MeshCodec.Cursor.ReadBody` | rodeo-client/src/runtime/mesh.rs:210-255 | reads everything after the header, with the source's errors in the source's order |
| `MeshCodec.CheckJoints` | rodeo-client/src/runtime/mesh.rs:246-254 | accepts exactly the influences that name a bone or none |
| `MeshLayout.DecodeBlob` | rodeo-client/src/runtime/mesh.rs:201-256 | on any bytes the cursor parser accepts exactly what begins with a well-formed mesh laid out so, and gives that mesh; anything else is refused for the first thing wrong with it |
| `MeshLayout.DecodeIff` | rodeo-client/src/runtime/mesh.rs:12-29 | decoding gives a mesh exactly when it is well-formed and the bytes hold it, field by field; other flag bits, padding and trailing bytes do not matter |
| `MeshLayout.DecodeRefuses` | rodeo-client/src/runtime/mesh.rs:185-256 | a refusal names the first thing wrong: too few bytes for what comes next, a wrong magic or version, an index count not in triples or an index out of range, a bone's parent or name, a joint out of range |
| `MeshCodec.RoundTripIff` | rodeo-client/src/runtime/mesh.rs:140-256 | a mesh's blob decodes to that same mesh, whatever bytes follow it, exactly when the mesh is well-formed |
| `MeshCodec.DecodeIsWellFormed` | rodeo-client/src/runtime/mesh.rs:201-256 | whatever is accepted is well-formed: arrays of one length, indices in range and in triples, parents first, influences in range |
| `MeshCodec.ReencodeDecoded` | rodeo-client/src/runtime/mesh.rs:140-256 | encoding what was decoded from any bytes and decoding it again changes nothing |
| `MeshCodec.EncodeInjective` | rodeo-client/src/runtime/mesh.rs:140-170 | two different well-formed meshes never share a blob |
| `MeshCodec.StreamsIff` | rodeo-client/src/runtime/mesh.rs:140-256 | a mesh survives being streamed through the blob exactly when it is well-formed |
| `MeshMotion.ProductTakes` | rodeo-client/src/runtime/mesh.rs:267-275 | a product of matrices takes a point where its right factor and then its left one take it |
| `MeshMotion.CframeTakes` | rodeo-client/src/runtime/mesh.rs:352-361 | a CFrame's matrix turns a point by the CFrame's rows and then moves it by its position |
| `MeshMotion.CframeReads` | rodeo-client/src/runtime/mesh.rs:341-350 | the CFrame read from a matrix does to points what the matrix does, but for the last row |
| `MeshMotion.InverseIff` | rodeo-client/src/runtime/mesh.rs:290-308 | there is no inverse exactly when the determinant, expanded along the first row, is within 10^-12 of zero |
| `MeshMatrix.AdjugateIsCofactorTable` | rodeo-client/src/runtime/mesh.rs:310-325 | the sixteen entries built from 2x2 minors are the transposed signed 3x3 cofactors |
| `MeshMatrix.DetTranspose` | rodeo-client/src/runtime/mesh.rs:294-306 | the determinant computed from minors is that of the transpose |
| `MeshMatrix.InverseTwoSided` | rodeo-client/src/runtime/mesh.rs:290-327 | whenever an inverse is given, its product with the matrix is the identity on both sides |
| `MeshMatrix.InverseUnique` | rodeo-client/src/runtime/mesh.rs:290-327 | it is the only matrix that is an inverse on either side |
| `MeshMatrix.NormalKeepsAngles` | rodeo-client/src/runtime/mesh.rs:330-338 | under an affine transform a transformed normal makes the same product with transformed tangents as before, divided by the length the normal is scaled by |
| `MeshRotation.NormalIsUnit` | rodeo-client/src/runtime/mesh.rs:283-286 | and it is a unit vector unless its length is within the threshold |
| `MeshMotion.NormalExact` | rodeo-client/src/runtime/mesh.rs:283-338 | without an inverse the normal stays; else its product with every moved direction is the old one but for one positive factor, and it is a unit vector, or within 10^-12 and then not scaled |
| `MeshMatrix.CframeRoundTrip` | rodeo-client/src/runtime/mesh.rs:341-361 | CFrame to matrix and back is the identity; matrix to CFrame and back is, exactly for affine matrices |
| `MeshMatrix.LocalTransforms` | rodeo-client/src/runtime/mesh.rs:707-711 | the product of local matrices from the root down to each bone is its bind matrix; failure names the first parent with a singular bind |
| `MeshMatrix.InverseBinds` | rodeo-client/src/runtime/mesh.rs:724 | every bone's matrix times its bind is the identity; failure names the first singular bone |
| `MeshMotion.NodeTree` | rodeo-client/src/runtime/mesh.rs:699-706 | each bone's node is listed once, under its parent's node or among the roots, every list in order |
| `MeshMatrix.SkeletonReproducesBindPose` | rodeo-client/src/runtime/mesh.rs:697-735 | a reader that multiplies locals from the root down and applies the inverse bind gets the identity at every bone, and the CFrame it recovers is the bone's own |
| `MeshMotion.WorldTakes` | rodeo-client/src/runtime/mesh.rs:707-711 | a reader poses a root by its local matrix alone, any other bone by the local matrix and then the way its parent is posed |
| `MeshMotion.PosedTakes` | rodeo-client/src/runtime/mesh.rs:697-711 | in the file a point of a bone's space goes where the bone's CFrame puts it |
| `MeshRotation.RotationRankOne` | rodeo-client/src/runtime/mesh.rs:364-383 | what the four branches read off a rotation are the products of one quaternion's components, whichever of them is divided by |
| `MeshRotation.QuatUnit` | rodeo-client/src/runtime/mesh.rs:364-386 | for any matrix whatever, no branch divides by zero and the result is a unit quaternion |
| `MeshMotion.NodeWritten` | rodeo-client/src/runtime/mesh.rs:364-386 | the node written of any matrix has its translation and the unit quaternion a positive multiple of which the matrix shows, by the trace if that is positive, else by the largest diagonal entry |
| `MeshMotion.NodeTakes` | rodeo-client/src/runtime/mesh.rs:712-719 | a node with a unit quaternion q takes v to q v q* and then moves it, in Hamilton's products |
| `MeshRotation.NodeKeepsIff` | rodeo-client/src/runtime/mesh.rs:364-386 | a matrix comes back from its translation and quaternion exactly when it is affine with a rotation, so rotations of every branch round-trip |
| `MeshRotation.PosesKeptIff` | rodeo-client/src/runtime/mesh.rs:697-719 | the nodes written pose every bone at its bind matrix exactly when every bone's CFrame is a rigid motion |
| `MeshRotation.SkeletonKeptIff` | rodeo-client/src/runtime/mesh.rs:697-735 | in the bind pose, nodes times inverse binds are the identity at every bone exactly then |
| `MeshRotation.StretchedBoneLost` | rodeo-client/src/runtime/mesh.rs:707-715 | a bone of twice the size is written and comes back in another pose |
| `BoneNames.Truncate` | rodeo-client/src/runtime/mesh.rs:538-539 | the name kept is the longest prefix of whole characters within 90 bytes |
| `BoneNames.NumberedInjective` | rodeo-client/src/runtime/mesh.rs:543 | different numbers give different candidates for one name |
| `BoneNames.FreeName` | rodeo-client/src/runtime/mesh.rs:540-545 | against any set of used names the loop halts within as many tries as there are names plus one, with the first candidate that is free |
| `BoneNames.NameJoints` | rodeo-client/src/runtime/mesh.rs:527-545 | all joints get pairwise distinct valid names; each is the first that is free of its own name (or "Bone" and its number), cut within 90 bytes behind a whole character, and that with _2, _3 and so on |
| `JointOrder.ParentJoint` | rodeo-client/src/runtime/mesh.rs:530-537 | finds the nearest joint above a node, none exactly when there is none, and reports a cycle exactly when the ancestors loop without reaching a joint |
| `JointOrder.Pass` | rodeo-client/src/runtime/mesh.rs:552-557 | one pass places the joints whose parents are placed when their turn comes, and no others; when it places none, every remaining joint's parent remains too |
| `JointOrder.OrderJoints` | rodeo-client/src/runtime/mesh.rs:549-559 | ends with a permutation that puts parents first, each joint the first ready one behind the joint placed before it, or the first of all if there is none behind; or with the cycle error exactly when some joint's parent chain loops |
| `JointOrder.InTurnUnique` | rodeo-client/src/runtime/mesh.rs:549-559 | there is at most one such order |
| `JointOrder.NewIndex` | rodeo-client/src/runtime/mesh.rs:560-561 | the new numbers invert the order |
| `JointOrder.Reorder` | rodeo-client/src/runtime/mesh.rs:562-567 | each placed joint is the old one, and its renumbered parent is at the place of its old parent, before it |
| `GltfReader.MergeIndices` | rodeo-client/src/runtime/mesh.rs:494-502 | refuses exactly the primitives whose index count or range is wrong; otherwise appends the indices moved by the vertices before |
| `GltfReader.Merge` | rodeo-client/src/runtime/mesh.rs:451-509 | succeeds exactly when there is a primitive and all are acceptable, and otherwise the first refused one gives the error; whatever the sticky flags went through, the result has all vertices, all moved indices and the attributes that are kept |
| `GltfReader.KeptIff` | rodeo-client/src/runtime/mesh.rs:475-509 | an attribute is kept exactly when every primitive carries it and it covers all vertices |
| `GltfReader.CornerKept` | rodeo-client/src/runtime/mesh.rs:470-502 | below the wrap, the merged index of every corner leads to the data its own primitive gave it |
| `GltfReader.LoopsAgree` | rodeo-client/src/runtime/mesh.rs:530-558 | a joint's chain of parent joints loops exactly when its node's chain of ancestors does |
| `GltfReader.ReadSkin` | rodeo-client/src/runtime/mesh.rs:511-567 | fails exactly when bind poses are miscounted or singular or some joint's ancestry loops, with the error of the first joint that fails; otherwise the bones are the joints in the order of their turns, with their own names, bind poses and the nearest joints above them as parents, none virtual |
| `GltfReader.RemapInfluences` | rodeo-client/src/runtime/mesh.rs:568-587 | every weighted influence names its joint's new place with its weight, every other slot is empty, for as many vertices as both lists have; it fails exactly when a weighted influence names no joint |
| `GltfReader.InfluenceNamesSameBone` | rodeo-client/src/runtime/mesh.rs:560-587 | after renumbering, a weighted influence names the bone of the joint it named before, with that joint's bind pose, name and parent |
| `GltfReader.ReaderStreamsIff` | rodeo-client/src/runtime/mesh.rs:439-590 | a mesh that is read survives the blob exactly when the counts are below 2^32 and, if skinned, the weights cover the vertices |
| `GltfParts.MergedIff` | rodeo-client/src/runtime/mesh.rs:451-509 | the merged vertices and corners, told from the primitives: every list one after the other, each index moved by the vertices before it, an attribute only if all have it and it covers all vertices; there is only one such mesh |
| `GltfParts.ReadParts` | rodeo-client/src/runtime/mesh.rs:439-590 | there is a mesh exactly when there are primitives, all of triangles with positions and corners in triples and in range, and the skin, if any, has its bind poses, ancestries that end and positive weights on its own joints; the mesh is then the merged vertices, each bone its joint, each positive weight on the bone its joint became; else the first primitive, the skin or a weight is to blame, and the error says for what |
| `GltfParts.ShortWeights` | rodeo-client/src/runtime/mesh.rs:475-590 | one triangle with three joint rows and one weight row is read, and its blob refused |
| `ObjReader.ResolveIff` | rodeo-client/src/runtime/mesh.rs:947-960 | an index resolves exactly when it names an item, counting from one or back from the end; to that item if it is numbered below 2^32, and never otherwise |
| `ObjReader.ReadLines` | rodeo-client/src/runtime/mesh.rs:829-861 | one pass over the lines gives the corners the lines add, in their order, or the first error (bad numbers, few corners, malformed corners, bad indices, a failed triangulation) |
| `ObjReader.CornersInRange` | rodeo-client/src/runtime/mesh.rs:847-856 | every corner of a file that is read names items defined by its end, and corners come in threes |
| `ObjFaces.DefinedExact` | rodeo-client/src/runtime/mesh.rs:832-845 | an item's number is the number of lines of its kind before it, and its row is its line's |
| `ObjFaces.CornersIff` | rodeo-client/src/runtime/mesh.rs:829-861 | the corners are those of the face lines, one face after the other with nothing between: a face of three tokens gives its tokens in order, a longer one what the triangulator gives of its tokens in order; and there are none exactly when some line adds nothing it should |
| `ObjReader.FirstUsesExact` | rodeo-client/src/runtime/mesh.rs:875-891 | the vertices are exactly the distinct keys of the corners, each once |
| `ObjReader.InFirstUseOrder` | rodeo-client/src/runtime/mesh.rs:875-891 | each vertex appears at a corner before which exactly the earlier vertices had been used |
| `ObjReader.VertexCount` | rodeo-client/src/runtime/mesh.rs:875-894 | there are as many vertices as distinct keys |
| `ObjReader.Dedup` | rodeo-client/src/runtime/mesh.rs:862-895 | the loop over a hash map gives the mesh of the distinct keys in first-use order, and refuses exactly an empty corner list |
| `ObjReader.IndicesTrueIff` | rodeo-client/src/runtime/mesh.rs:888-893 | every 32-bit index leads to its corner's key exactly when there are at most 2^32 vertices |
| `ObjReader.CornerDataKept` | rodeo-client/src/runtime/mesh.rs:867-894 | at every corner the position, and the UV and normal kept exactly if all corners have them, are those the corner named, in arrays as long as the positions |
| `ObjReader.CornerWritten` | rodeo-client/src/runtime/mesh.rs:847-856 | every corner of the file comes from a token of some face, resolved against what was defined by that line |
| `ObjReader.TokenDataKept` | rodeo-client/src/runtime/mesh.rs:824-896 | from file to mesh: up to 2^32 vertices, each corner of the mesh shows, in every attribute kept, the row its token named when it was written, with the number cut to 32 bits |
| `ObjReader.RowNamedTrue` | rodeo-client/src/runtime/mesh.rs:947-960 | and that is the very item named while at most 2^32 are defined |
| `ObjReader.ReaderStreamsIff` | rodeo-client/src/runtime/mesh.rs:862-895 | the mesh survives the blob exactly when vertices and corners number below 2^32 |
| `ObjFaces.FaceShown` | rodeo-client/src/runtime/mesh.rs:847-901 | if the lines before a face of three tokens added c corners, corners c, c + 1 and c + 2 of the mesh show its tokens, in this order |
| `ObjFaces.PolygonShown` | rodeo-client/src/runtime/mesh.rs:847-923 | a longer face shows the triangulator's corners in the order it gave them |
| `ObjFaces.ParseObj` | rodeo-client/src/runtime/mesh.rs:824-896 | for all lines and every triangulator: succeeds exactly when every line is good and some line is a face, blames the first bad line otherwise, or the lack of faces; the mesh shows each face's corners in their places, and it is said when the result streams |
| `Routing.ResolveIff` | rodeo-cli/src/shared/target.rs:165-234 | what a route resolves to: what is given stays, without a mode it is edit, kind and context fill in for one another, and of the rest only the combinations that exist |
| `Routing.ModeIsGiven` | rodeo-cli/src/shared/target.rs:165-234 | a mode other than edit is never inferred |
| `Routing.OwnerIff` | rodeo-cli/src/master/mod.rs:328-337 | what is sent to a DOM goes to the first backend, in the map's order, that lists it, and nowhere when none does |
| `Routing.MatchExact` | rodeo-cli/src/master/mod.rs:371-430 | a pinned run gets its DOM if some snapshot lists it; another gets, of the connected DOMs of its session and of the kind and mode its route resolves to, the one with the fewest runs, the first in the snapshots' order among equals, and none only when there is none |
| `Routing.StrandedIff` | rodeo-cli/src/master/mod.rs:594-621 | a queued run is drained exactly when it is scoped to a session of which no connected DOM is in any snapshot |
| `Scheduler.BestMeans` | rodeo-cli/src/master/mod.rs:391-428 | the DOM chosen is eligible and least loaded, first on ties, and none is chosen only when none is eligible |
| `Scheduler.MatchIff` | rodeo-cli/src/master/mod.rs:371-430 | a run is matched exactly when some DOM in the snapshots is a candidate for it, and then with a candidate |
| `Scheduler.KeepExact` | rodeo-cli/src/master/mod.rs:584-586 | removal keeps exactly the entries not dropped, in their order |
| `Scheduler.DispatchFromActive` | rodeo-cli/src/master/mod.rs:578-589 | after routing, an id is active with the DOM matched for its queued run if it had one, else as before |
| `Scheduler.DropLog` | rodeo-cli/src/master/mod.rs:622-639 | a channel gets ExecutionKilled and Complete exactly if its run is drained, and otherwise nothing |
| `Targets.GroupDoms` | rodeo-cli/src/master/mod.rs:657-672 | the groups are those of the connected DOMs, each with its own DOM ids sorted |
| `Targets.DeriveModes` | rodeo-cli/src/master/mod.rs:674-706 | the loops over the sorted queue give every group the target of its specification |
| `Targets.TargetMeans` | rodeo-cli/src/master/mod.rs:674-706 | that target is the mode of the earliest-created queued run that applies to the group, stable on ties, and empty exactly when none applies |
| `Targets.CollectPushes` | rodeo-cli/src/master/mod.rs:708-726 | pushes go to all DOMs of the changed groups and no others; the new record is of every group |
| `Targets.BroadcastExact` | rodeo-cli/src/master/mod.rs:648-738 | each connected DOM is sent its group's target once, exactly when that target or the DOM list differs from the last record (or is new and not empty), and never another |
| `Targets.SortedUnique` | rodeo-cli/src/master/mod.rs:672 | a group's sorted list depends only on which DOMs it has |
| `Targets.RecordStable` | rodeo-cli/src/master/mod.rs:657-726 | so finding the same DOMs in another order leaves the DOM list of every record as it was |
| `TargetOrder.TargetStableIff` | rodeo-cli/src/master/mod.rs:657-706 | a group's target is the same in every order of the connected DOMs exactly when every run that can decide it asks for the mode of the earliest run that drives it in every order |
| `TargetOrder.DeciderCan` | rodeo-cli/src/master/mod.rs:657-706 | a run that decides in some order can decide: no run before it surely drives the group, and those scoped to a session can all be led elsewhere at once |
| `TargetOrder.CanThenDoes` | rodeo-cli/src/master/mod.rs:657-706 | and a run that can decide does so in an order given |
| `TargetOrder.OneGroupStable` | rodeo-cli/src/master/mod.rs:657-706 | in particular when, for each scoped run that can decide it, all connected DOMs with its identifier are in one group |
| `TargetOrder.TwoGroupsCanAgree` | rodeo-cli/src/master/mod.rs:657-706 | which is not needed: runs that differ in who decides may ask for one mode |
| `TargetOrder.RecordStableIff` | rodeo-cli/src/master/mod.rs:657-726 | the whole record, list and target, is the same in every order under the condition of the target |
| `TargetOrder.OrderDecides` | rodeo-cli/src/master/mod.rs:657-706 | two DOMs of a session, one without a studio yet: the two groups swap targets with the order |
| `Master.MasterState.FindMatchForRun` | rodeo-cli/src/master/mod.rs:371-430 | the `best` loop over all snapshots gives the specified match |
| `Master.MasterState.ProcessPendingRuns` | rodeo-cli/src/master/mod.rs:574-589 | removing routed indices in reverse leaves the specified queue, active runs and messages, which `MasterSteps.StepQueue`, `MasterEffects.StepActive` and `MasterOutbox.StepSends` tell by events: a script for each run that becomes active, and no other |
| `Master.MasterState.DrainDeadSessions` | rodeo-cli/src/master/mod.rs:594-641 | draining session by session is dropping every run whose session has no connected DOM |
| `Master.MasterState.DeriveAndPushTargets` | rodeo-cli/src/master/mod.rs:648-738 | the loops over hash maps record and send what the per-group specification says, in any order |
| `Master.MasterState.ReconcileAll` | rodeo-cli/src/master/mod.rs:567-571 | routing, draining and pushing in place is the specified step and touches no snapshot |
| `Master.MasterState.RouteOrQueueRun` | rodeo-cli/src/master/mod.rs:554-562 | answers routed exactly when there is a match, and takes the step of a submit, told by events in `MasterHistory.SubmitStarts` |
| `Master.MasterState.CompleteRunNow` | rodeo-cli/src/master/mod.rs:809-842 | a profiled run is retained, another leaves with a Complete, an unknown id only reconciles |
| `Master.MasterState.HandleFilesComplete` | rodeo-cli/src/master/mod.rs:845-850 | an active run leaves with a Complete, whether profiled or not |
| `Master.MasterState.ClientDisconnected` | rodeo-cli/src/master/mod.rs:853-869 | a queued run goes; an active one stays and its DOM is told to kill it |
| `Master.MasterState.BackendDisconnected` | rodeo-cli/src/master/grpc.rs:135-150 | the cleanup loop, whose completions may dispatch again, is the specified sweep of the runs no remaining backend owns |
| `Master.MasterState.DomDisconnected` | rodeo-cli/src/master/grpc.rs:209-238 | the sweep of the DOM's runs, then the runs pinned to it dropped, then one reconciliation |
| `Master.MasterState.SnapshotArrived` | rodeo-cli/src/master/grpc.rs:306-315 | a known backend's snapshot is replaced, and the state reconciled either way |
| `Master.MasterState.DoneArrived` | rodeo-cli/src/master/grpc.rs:290-297 | takes the step in which the client is sent ExecutionDone with what the plugin reported, before the run is completed; `MasterMessages.StepHears` says so of the channel |
| `Master.MasterState.KilledArrived` | rodeo-cli/src/master/grpc.rs:298-303 | the client is sent ExecutionKilled before the run is completed |
| `Master.MasterState.ClientSent` | rodeo-cli/src/master/grpc.rs:588-611 | an answer or kill reaches the DOM of an active run and is dropped otherwise |
| `Master.MasterState.OutputArrived` | rodeo-cli/src/master/mod.rs:782-790 | output of an active run goes to its client as it came, any other is dropped |
| `MasterSteps.StepBackends` | rodeo-cli/src/master/grpc.rs:120-315 | over any step a lost backend goes, a snapshot replaces those of its own backend, a registration may reorder the map, and nothing else changes them |
| `MasterSteps.StepQueue` | rodeo-cli/src/master/mod.rs:554-641 | over any step the queue left is exactly the runs, of those queued and the one submitted, that no DOM is there for, whose session lives, that are not pinned to a lost DOM and whose client stays, in their order |
| `MasterEffects.StepActive` | rodeo-cli/src/master/mod.rs:496-589 | over any step an active run stays with its DOM, is kept as ended if it is profiled, or goes; an id becomes active exactly if a waiting run of that id has a DOM to go to, and then on that DOM |
| `MasterMessages.StepHears` | rodeo-cli/src/master/mod.rs:782-850 | over any step the client of an active run is sent exactly its output, ExecutionDone with the plugin's own verdict, ExecutionKilled or Disconnect, and then Complete exactly if the run ends unprofiled or its files are complete |
| `MasterMessages.StepOverhears` | rodeo-cli/src/master/mod.rs:594-641 | any other client is sent nothing, but ExecutionKilled and Complete if the step drains its queued run |
| `MasterOutbox.StepSends` | rodeo-cli/src/master/mod.rs:496-551 | over any step exactly one RunScript goes out for each run that becomes active, to its DOM through the first backend that lists it; one KillScript when the client of an active run leaves; a client's answer as it is; the end of a profiled run once to each backend; and nothing else but target modes |
| `MasterBroadcasts.TargetExact` | rodeo-cli/src/master/mod.rs:674-706 | a studio's target is what the run asks for that was created first, or queued first of those created at the same time, of the runs that ask it for anything; else it is empty |
| `MasterBroadcasts.RecordedExact` | rodeo-cli/src/master/mod.rs:657-726 | there is a record for each studio with a connected DOM, with its target and its connected DOMs' ids in order |
| `MasterBroadcasts.StepRecords` | rodeo-cli/src/master/mod.rs:648-738 | a step that looks through the queue leaves the records those of the queue and the snapshots; no other step touches them |
| `MasterBroadcasts.StepTells` | rodeo-cli/src/master/mod.rs:708-738 | a step that looks through the queue tells exactly the DOMs of the studios whose record it makes new or changes, each the recorded mode, once for each entry, through the first backend that lists it; no other step tells any |
| `MasterHistory.ChannelOrigin` | rodeo-cli/src/master/grpc.rs:185-354 | over all runs, nothing is on a channel that no step put there: output as it came while the run was active, the plugin's own word that it is done or killed, the loss of its DOM or backend, or the end of its session while it was queued |
| `MasterHistory.DoneIsReported` | rodeo-cli/src/master/grpc.rs:290-297 | an ExecutionDone on a channel is the report of some step, with the same verdict, for the run then active on the channel |
| `MasterHistory.ScriptsFollowStarts` | rodeo-cli/src/master/mod.rs:496-551 | over every run of the master, a script is sent to a DOM exactly as often as the run of that id has become active there, each time through the first backend that lists the DOM |
| `MasterHistory.LeavingKills` | rodeo-cli/src/master/mod.rs:853-869 | when the client of an active run leaves, its DOM is sent the kill of that run, once, and nothing else goes out; when the run is not active, nothing does |
| `MasterHistory.AnswersReach` | rodeo-cli/src/master/grpc.rs:588-611 | a client's answer or kill reaches the DOM of its active run as it is, once, and nothing else goes out |
| `MasterHistory.SubmitStarts` | rodeo-cli/src/master/mod.rs:496-562 | a submitted run that has a DOM to go to is active there at once, and its script, once, is all that goes out |
| `MasterRuns.ReconcileKeeps` | rodeo-cli/src/master/mod.rs:567-738 | reconciling keeps ids and channels distinct, ends a channel properly or not at all, and loses no run |
| `MasterRuns.StepKeeps` | rodeo-cli/src/master/grpc.rs:185-354 | so does every handler but FilesComplete, with all the dispatching its completions cause |
| `MasterRuns.FilesDoneKeeps` | rodeo-cli/src/master/mod.rs:845-850 | FilesComplete too, and it sends Complete to exactly the channel of the run it ends |
| `MasterTheorems.RunInv` | rodeo-cli/src/master/mod.rs:302-311 | in every reachable state ids and channels are distinct across queue and active runs, and every channel is output, then at most one ending |
| `MasterTheorems.NothingAfterComplete` | rodeo-cli/src/master/mod.rs:782-850 | nothing is ever sent on a channel after its Complete |
| `MasterTheorems.LeavesOnlyCompleted` | rodeo-cli/src/master/mod.rs:809-850 | over any step an active run stays on its DOM or its channel ends with Complete |
| `MasterTheorems.QueuedAccounted` | rodeo-cli/src/master/mod.rs:554-641 | over any step a queued run stays queued, becomes active or is completed, unless its client left or the DOM it was pinned to was lost |
| `MasterTheorems.NeverVanishesIff` | rodeo-cli/src/master/grpc.rs:290-322 | in a run of the master every unprofiled channel that has Complete has, just before it, one word on how the run ended, exactly when no FilesComplete came for an active unprofiled run |
| `MasterQueue.RunSettled` | rodeo-cli/src/master/mod.rs:554-589 | in every reachable state no queued run has a candidate DOM in the snapshots |
| `MasterQueue.ReconcileTwice` | rodeo-cli/src/master/mod.rs:567-738 | a second reconciliation alters nothing and sends nothing, from any state |
| `MasterQueue.ProcessPendingExact` | rodeo-cli/src/master/mod.rs:574-589 | the queue left is the unmatched runs in order, each matched one is active on its match, and runs active before are untouched |
| `MasterQueue.DrainExact` | rodeo-cli/src/master/mod.rs:594-641 | the queue left is the runs of living sessions in order; each drained run's channel has ExecutionKilled then Complete, every other channel is untouched |
| `MasterQueue.BackendLossSweeps` | rodeo-cli/src/master/grpc.rs:135-150 | afterwards every unprofiled active run's DOM has a remaining owner, and each orphan got Disconnect and, if unprofiled, Complete, though each completion may dispatch more |
| `MasterQueue.DomLossSweeps` | rodeo-cli/src/master/grpc.rs:209-238 | afterwards no unprofiled active run is on the lost DOM, each of its runs was told as above, and no queued run is pinned to it |
| `MasterQueue.SessionsLiveIff` | rodeo-cli/src/master/grpc.rs:135-150 | a step keeps every queued session-scoped run's session alive exactly unless it is a backend loss with no orphan that takes such a session's DOMs away |
| `MasterTargets.CurrentIff` | rodeo-cli/src/master/mod.rs:567-571 | a step keeps every record what queue and snapshots ask for exactly unless a client leaves whose run alone decides some group, a backend that shows DOMs is lost with no orphan, or a registration reorders the map so that some target changes |
| `MasterTargets.RunCurrent` | rodeo-cli/src/master/mod.rs:554-738 | so in a run without such a step the records are right at any time |
| `MasterWitnesses.FilesCanComeTooEarly` | rodeo-cli/src/master/grpc.rs:319-322 | there is a run of the master in which FilesComplete ends an unprofiled run |
| `MasterWitnesses.DeadSessionsCanWait` | rodeo-cli/src/master/grpc.rs:135-150 | there is a run of the master that ends with a queued run of a dead session |
| `MasterWitnesses.StudioStaysDriven` | rodeo-cli/src/master/mod.rs:853-869 | there is a run of the master that ends with an empty queue and a studio still told to run |
| `RunClient.AwaitTasks` | rodeo-client/src/run.rs:370-399 | waits every running call to its end, in any interleaving, and shows no output meanwhile |
| `RunClient.HandleTerminal` | rodeo-client/src/run.rs:359-403 | after ExecutionDone or ExecutionKilled no call runs and nothing captured is held back; the outcome is the one read before |
| `RunClient.MessageLoop` | rodeo-client/src/run.rs:277-516 | for every stream and interleaving: one Done, last; what is shown is what the calls wrote, each call's chunks in its own order, and all of them for calls received before an ending; start and file events are relayed in order; the exit code is one the endings and the exit requests heard by then allow, or 2 without a Complete |
| `RunClient.SuccessMeans` | rodeo-client/src/run.rs:359-445 | exit code 0 means that no event said the run failed, or that some call asked for 0 |
| `RunClient.FailureMeans` | rodeo-client/src/run.rs:359-445 | any other means that some event did, or that some call asked for that very code |
| `RunClient.ExitDecides` | rodeo-client/src/run.rs:359-403 | the last ending gives a code some call received before it asked for, or else its own outcome; the latter only if no call received before an earlier ending asked for any |
| `RunClient.RacingExit` | rodeo-client/src/run.rs:359-403 | on one stream the loop's own steps give the requested code or the ending's, as the calls are served before or after the ending is read |
| `RunResults.EndingMeans` | rodeo-client/src/run.rs:277-516 | however the loop ends, starts and files were passed on as they came; the result is given last and holds the id of the last start, each file as the concatenation of its chunks, the value of the last verdict and what the calls wrote; without a Complete the code is 2 |
| `RunResults.ExitCodeMeans` | rodeo-client/src/run.rs:359-445 | after a Complete, code 0 means that no event said the run failed or was killed, or that a call received asked for 0; another code that an event did, and then it is 1, or that a call asked for that code |
| `RunResults.FileIs` | rodeo-client/src/run.rs:446-456 | a result file is its chunks, one behind the other |
| `EndToEnd.SuccessIsReal` | rodeo-client/src/run.rs:359-445 | if no files came too early and the client reports an unprofiled run with exit 0, then at some step the plugin itself reported success for the run active on this channel, or the script asked for exit 0 |
| `EndToEnd.BareIsTakenForSuccess` | rodeo-client/src/run.rs:427-445 | on every channel whose Complete has no word before it on how the run ended, the client reports success with exit code 0 |
| `FilePatch.Disk.BackUp` | rodeo-cli/filepatch/src/lib.rs:212-232 | claims a lock, moves the target aside or leaves a sentinel in one step, and knows whether there was an original |
| `FilePatch.Disk.Apply` | rodeo-cli/filepatch/src/lib.rs:203-255 | stopped anywhere: the lock found, the target's bytes or an empty file is now the new lock, the builder saw what the lock or the target held, and as much of its answer as there were steps for is in the target; a handle is given exactly when the builder succeeded and nothing stopped it |
| `FilePatch.Disk.RestoreFromLock` | rodeo-cli/filepatch/src/lib.rs:156-175 | stopped anywhere: the target is deleted, if that works, and then the lock moves over it, or, if it is empty, is deleted, if that works; without the lock nothing changes |
| `FilePatch.Disk.SweepStale` | rodeo-cli/filepatch/src/lib.rs:184-194 | when not stopped the count is that of the locks without an owner or with a dead one; with none of them nothing changes; when the deletions work none of them is left, every other lock is as it was, and the target holds what the last one held, or is gone if that was empty |
| `FilePatch.Handle.Restore` | rodeo-cli/filepatch/src/lib.rs:71-92 | only the first call acts, it does nothing once the lock is gone, and goes on whichever of its ignored deletions fail |
| `PatchRuns.StepMeans` | rodeo-cli/filepatch/src/lib.rs:71-255 | what each operation of a run leaves of the directory and the handles, wherever it is stopped, told by its target, locks and deletions |
| `PatchRuns.StepKeepsIff` | rodeo-cli/filepatch/src/lib.rs:71-255 | any one operation, stopped anywhere, keeps at most one lock, its bytes the original, and without a lock the target the original, exactly unless it takes away the lock of an absent original while failing to delete the target |
| `PatchRuns.RunKeeps` | rodeo-cli/filepatch/src/lib.rs:71-255 | so does any sequence of operations, crashes, deaths and outside writes that leaves no empty unlocked target and no patch behind |
| `PatchRuns.OwnerRestores` | rodeo-cli/filepatch/src/lib.rs:71-92 | the owner of the lock restores the original and leaves no lock, whatever was written to the target, exactly if there is an original or the deletions that matter go through |
| `PatchRuns.SpentRestoreIsNoOp` | rodeo-cli/filepatch/src/lib.rs:71-78 | a handle already restored, or whose lock was claimed, changes nothing |
| `PatchRuns.SpentStaysSpent` | rodeo-cli/filepatch/src/lib.rs:71-78 | and it stays so: a lock name once gone never returns |
| `PatchRuns.ApplyClaims` | rodeo-cli/filepatch/src/lib.rs:203-255 | after any history, the builder is shown the original, not an earlier patch, and the one lock left is the new one |
| `PatchRuns.AlwaysRecoverable` | rodeo-cli/filepatch/src/lib.rs:203-255 | from any consistent state, a patch and its restore give back the original with no lock |
| `PatchRuns.SweepHealsExactly` | rodeo-cli/filepatch/src/lib.rs:184-194 | a full sweep changes nothing when every lock has an owner that is alive; if a lock has none, or a dead one, the original is back and no lock is left, exactly under the condition of a restore |
| `PatchRuns.EmptyOriginalLost` | rodeo-cli/filepatch/src/lib.rs:160-163 | some run of the protocol loses a zero-byte original |
| `PatchRuns.SafeIff` | rodeo-cli/filepatch/src/lib.rs:160-224 | no run of the protocol in which deletions work loses an original exactly when it is absent or not empty |
| `PatchRuns.PatchLeft` | rodeo-cli/filepatch/src/lib.rs:71-92 | some run of the protocol leaves a patched file where there was none |
| `PatchRuns.AlwaysSafeIff` | rodeo-cli/filepatch/src/lib.rs:71-255 | no run whatsoever loses an original exactly when it exists and is not empty |
| `PatchRuns.UnclaimedRestores` | rodeo-cli/filepatch/src/lib.rs:71-92 | even an empty original comes back from a lock that nobody claimed; an absent one exactly when the deletions work |
| `Fflags.AutoPrefixKnown` | rodeo-cli/rbx-control/src/fflags.rs:98-114 | every key ends up with a known prefix, and prefixing again changes nothing whatever the value |
| `Fflags.ParseOverrides` | rodeo-cli/rbx-control/src/fflags.rs:127-139 | the map has, for each key, what the last override sets that sets it, and no other key: an override is name=text, cut at its first =; the text stands for true, false, a signed 64-bit number or itself; the key is the name if that has one of the ten known prefixes, else FFlag, FInt or FString and the name |
| `Fflags.LastOfMeans` | rodeo-cli/rbx-control/src/fflags.rs:127-139 | an override after which none sets the key is the one that decides it |
| `Fflags.MergePrecedence` | rodeo-cli/rbx-control/src/fflags.rs:190-228 | key by key, the last override wins over the file, the file over the original |
| `Fflags.ApplyFlags` | rodeo-cli/rbx-control/src/fflags.rs:185-245 | an unusable file or no flags changes nothing; otherwise the settings file is patched by the merge, wherever that is stopped |
| `Fflags.FflagHandle.Restore` | rodeo-cli/rbx-control/src/fflags.rs:164-174 | acts once, as a restore does; a handle whose lock was claimed leaves the files alone; a directory made for the patch goes only when it holds no other file, no target and no lock |
| `Fflags.FlagsNeverAccumulate` | rodeo-cli/rbx-control/src/fflags.rs:213-232 | after any history of patchers that left no patch behind, the file written is the merge over the first original, and the lock still holds that original |
| `Fflags.WrittenFlagsAre` | rodeo-cli/rbx-control/src/fflags.rs:213-232 | so, read back key by key, the file written says what the last override to set the key says, else its file's value, else the original's if that was a JSON object, with nothing of earlier patchers |
| `Fflags.LastOwnerGivesBack` | rodeo-cli/rbx-control/src/fflags.rs:164-174 | after such a history, the owner of the lock restores the first original's bytes, exactly if there were any or its deletions go through |

## Left out

- Transport and processes: connect streams, WebSockets, Studio launch and save, StudioMCP, signals, the CLI and the TypeScript and Luau wrappers are I/O or foreign calls.
- `BackendState` (rodeo-cli/src/master/mod.rs:39-233) repeats the master's routing for one backend.
- `set_target_mode` and DOMs that change their group key: no claim is made about what a DOM was last told once they occur.
- Rejected submissions (version gate, invalid route) get Created and Disconnect and never enter the master's state.
- Pending saves, process listings, and the route context and timing fields kept for display change nothing the properties are about.
- `Scheduler.DispatchFromActive`: the chunks of a run command count as one RunScript there; `Transport.BuildRunCommand` has the split.
- `Master.MasterState.DeriveAndPushTargets`: the order in which messages reach different DOMs is not captured, because outgoing messages are a multiset.
- `MasterTheorems.NeverVanishesIff`: profiled runs are excluded; they stay active until FilesComplete, which an external scanner decides.
- `MasterQueue.BackendLossSweeps`: profiled runs stay active with their lost DOM until FilesComplete; they are told Disconnect only.
- `EndToEnd.SuccessIsReal`: profiled runs are excluded for the same reason.
- `RunClient.MessageLoop`: which of standard output and error a chunk belongs to, what a call does besides writing and exiting, and the flush of stream files and temporary directories after the loop are not modelled; profile files are not written.
- `FilePatch.Disk.Apply`: two processes interleaving inside one operation are not modelled; each operation runs alone, to its end or to where it stops.
- `FilePatch.Disk.BackUp`: metadata and existence queries always answer; one that fails reads as "no original" or "no file" in the source.
- `MeshRotation.PosesKeptIff`: over reals with an exact square root; f32 rounding is not modelled, so "comes back" is exact here and approximate in the file.
- `MeshMatrix.NormalKeepsAngles`: over reals, as all of `MeshMatrix`.
- `GltfParts.ReadParts`: the baking of node transforms and the error for a second skin come before the data this model starts from.
- `ObjFaces.ParseObj`: lines come as tokens, already told apart into good and bad ones; splitting text, reading numbers, turning a texture row's v over and the earcut triangulation are not modelled.
- JSON, base64 and the glTF accessors, `write_obj` and the glTF buffer layout are text and format work without state.
