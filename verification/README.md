# The Forgotten Server: containers, persistence and protocols

This project models the parts of the server in which state is hardest to keep right, and proves what they keep.

* **Files and streams.** `fileloader.dfy` is the loader for trees of nodes with escaped properties: a grammar for its files, the parser as a loop over bytes with a stack of pointers into a growing tree, and the proof that it accepts exactly the grammar and rebuilds exactly the tree. `propstream.dfy` is the byte streams, `item.dfy` the attributes of items and their wire form, with the exact condition under which an item comes back from a save unchanged, and what becomes of any other.
* **Saved items.** `iomapserialize.dfy` is the recursive byte format of house items, `iologindata.dfy` the rows in which a player's items are saved breadth first, and from which objects are rebuilt by walking ids downwards.
* **Containers.** `forest.dfy` and `levelorder.dfy` are about forests given by lists of children: who holds whom, sums over everything below a node, level order. `container.dfy` is the objects with parent pointers, lists and weight caches, changed in place; what a method does is stated on a snapshot of the heap, and the laws of the snapshots say what every operation keeps. `containerclone.dfy` is the recursive clone, `containeriterator.dfy` the breadth-first iterator, `containerquery.dfy` the questions a container answers, `heapruns.dfy` runs of operations.
* **Moving, adding, paying.** `moveitem.dfy`, `additem.dfy` and `money.dfy` are the game's operations on containers, with conservation of every kind of item and of money; `additemlosses.dfy` is about what an addition can lose.
* **Protocols.** `trade.dfy` is trading between any number of players, `decay.dfy` the four-bucket decay wheel, `walkcache.dfy` the table of tiles a creature can step on, `conditions.dfy` haste, paralysis and attribute changes, `databasetasks.dfy` the task queue shared by a worker and flushing callers.
* **Arithmetic.** `damagelist.dfy` is the splitting of a lasting damage into hits, `area.dfy` the turning of areas of effect.

Each file models the fields its source uses, so that for instance an item is a catalogue id with attributes where it is saved, an object with a parent and a list where it is moved, and a duration where it decays.

Where the code does not keep what one would expect of it, the model follows the code and the exact condition is proved: an item comes back from a save unchanged only if it meets `Items.Survives`; a file that holds a bare root is refused; an unknown id in a house save puts the reader out of step; a diagonal step to the south leaves the first and last rows of the walk cache wrong unless their tiles repeat, because `getDistanceY` (`src/position.h:67-69`) is never negative and the branch for a negative distance is never taken; the hits of a damage list add up to more than the damage exactly when one hit of each value already does; database tasks finish in the order accepted exactly as long as each is taken while none is running, so that a flush beside the worker can let a later one finish first; a stack added to a container is added whole, whatever the container, exactly if, having attributes, it has no time left or is registered for decay already, or, having none, is as it would be created, as what is left of it after the first stack is a copy, and copies with time left are registered; an item in the decay wheel is in one place and decays on time as long as it is not queued again or given a new duration while it decays, but additions and copies queue without asking, and a copy that is added is queued twice, ages twice as fast, and decays on time only if it has less than 1875 milliseconds to go.

What the source asks of code outside these parts is a parameter: the answer of the player or tile that carries a container, what the scripts allow, the clock, the dice, distances and lines of sight, and the walkability of a tile.

`dafny verify dfyconfig.toml` checks the whole project.

## Model

| member | source | states |
|---|---|---|
| Otb.LoadAccepts | src/fileloader.cpp:31-105 | a file is accepted exactly when it is longer than the minimal size, begins with the identifier asked for or with zeros, and is derived, after that, from the grammar of nested, escaped nodes |
| Otb.Unambiguous | src/fileloader.cpp:53-105 | a byte sequence is derived in at most one way |
| Otb.RunSound | src/fileloader.cpp:64-99 | at every byte, what has been read is the text of the open nodes, or of the closed root and what follows it |
| Otb.LoadBuilds | src/fileloader.cpp:53-105 | the node tree built is the derivation tree, with every node's property range where its bytes lie |
| Otb.UnescapeMarks | src/fileloader.cpp:107-122 | dropping escapes gives back exactly the bytes that were escaped, for every legal way of escaping |
| Otb.DerivedDecodes | src/fileloader.cpp:53-122 | kinds, unescaped properties and children read through the loaded nodes are those of the derivation |
| Otb.RoundTrip | src/fileloader.cpp:31-122 | every tree, written with escapes behind the identifier asked for or zeros, is loaded back as the same tree; the file is refused only behind another identifier, or when it is a bare root, too short for the loader |
| Otb.Loader.Make | src/fileloader.cpp:30-43 | a loader exists exactly for files that are long enough and carry the identifier |
| Otb.PushStored | src/fileloader.cpp:66-79 | opening a node keeps the stack the rightmost path of the tree built so far |
| Otb.PopStored | src/fileloader.cpp:81-88 | closing a node keeps the stack the rightmost path of the tree built so far |
| Otb.StackIsPath | src/fileloader.cpp:61-88 | no pointer on the stack lies below the node on top of it, so none is invalidated when that node's child vector grows |
| Otb.PutAssembled | src/fileloader.cpp:67-78 | storing a node through the innermost pointer changes that node of the tree and nothing else |
| Otb.Loader.EmplaceChild | src/fileloader.cpp:67-78 | the child is appended to the node the stack points at, and the pointer returned is the child's |
| Otb.Loader.ParseChar | src/fileloader.cpp:65-98 | one byte further, tree and stack still are those that belong to what has been read; a refusal means that the whole file is refused |
| Otb.Loader.ParseTree | src/fileloader.cpp:53-105 | on a file the constructor admitted, succeeds exactly if it is accepted, and its tree is the derivation tree |
| Otb.Loader.GetProps | src/fileloader.cpp:107-122 | succeeds exactly on non-empty properties and leaves them unescaped in the buffer |
| PropStreams.LeRoundTrip | src/fileloader.h:84-150 | little-endian numbers of any width read back |
| PropStreams.NumberRoundTrip | src/fileloader.h:84-150 | a number written before any bytes is read back and leaves exactly those bytes |
| PropStreams.LeBytes | src/fileloader.h:84-150 | the bytes of a number, least significant first |
| PropStreams.StringRoundTrip | src/fileloader.h:95-161 | a string written before any bytes is read back and leaves exactly those bytes; one longer than 65535 comes back empty |
| PropStreams.PropStream.Read | src/fileloader.h:84-93 | reads what the remaining bytes begin with and advances past it, or fails without advancing |
| PropStreams.PropStream.ReadString | src/fileloader.h:95-112 | reads length and characters, or fails |
| PropStreams.PropWriteStream.WriteString | src/fileloader.h:152-161 | appends length and characters, or a zero length for what is too long |
| Items.ValueRoundTrip | src/item.cpp:371-664 | an attribute value written is read back as the type it is read with casts it |
| Items.ReadField | src/item.cpp:371-664 | reading one written attribute applies its cast value and goes on with the rest |
| Items.ReadWritten | src/item.cpp:666-683 | reading all written attributes applies them in order, and stops at the end mark or at a container's items |
| Items.TagSurvivesIff | src/item.cpp:685-809 | an attribute comes back as it was exactly when its condition holds |
| Items.SubTypeSurvivesIff | src/item.cpp:40-86 | count, charges and fluid come back exactly when their condition holds |
| Items.ReloadedIff | src/item.cpp:40-809 | an item saved and loaded, on either road, is the same item if and only if it meets a condition on its own fields |
| Items.ReloadedComesBack | src/item.cpp:371-809 | what a save and a load, on either road, make of any item, tag by tag: a decay state of 1 or 2 comes back as 2; an action id of a moveable type as its 16 bits but at least 100, unless these are 0; a duration as its signed 32 bits cut off at 0, and as the type's where there was none; a text too long not at all; count, fluid and charges as the last of them written |
| Items.CreatedWith | src/item.cpp:42-95 | what a newly created item has: count, charges, fluid and duration by its type |
| Items.WireNumbers | src/item.cpp:371-809 | the number and the format of every tag on the wire |
| Items.WriteField | src/item.cpp:685-809 | appends tag and value |
| Items.SerializeAttr | src/item.cpp:685-809 | appends the item's attributes, in the order and under the conditions of the source; what a load makes of them is Items.ReloadedComesBack |
| Items.ReadValue | src/item.cpp:371-664 | reads one value of a format, or fails |
| Items.UnserializeAttr | src/item.cpp:666-678 | applies the attributes read to the item, until the end mark, the end of the stream or the items of a container |
| HouseItems.LoadSaved | src/iomapserialize.cpp:116-165 | loading what was saved, before any further bytes, gives the tree restored item by item, and consumes exactly the bytes of the tree |
| HouseItems.RoundTripIff | src/iomapserialize.cpp:116-235 | the tree loaded is the tree saved, and exactly its bytes are consumed, if and only if every item in it survives on its own; and any tree of known items comes back item by item as Items.ReloadedComesBack says |
| HouseItems.RestoreComesBack | src/iomapserialize.cpp:116-235 | in a tree of known items, every item comes back in its place as Items.ReloadedComesBack says |
| HouseItems.BagBytes | src/iomapserialize.cpp:217-235 | a bag of two stacks of coins, byte by byte: contents from last to first, the end mark of the bag after them |
| HouseItems.LoadedKnown | src/iomapserialize.cpp:134-165 | whatever the bytes, a loaded tree holds only items of known types |
| HouseItems.UnknownIdDesynchronises | src/iomapserialize.cpp:134-165 | an item of unknown id is skipped without its bytes, so that what follows is read out of step |
| HouseItems.SaveItem | src/iomapserialize.cpp:217-235 | appends id, attributes, and for a container its count, its items from last to first, and the end mark |
| HouseItems.LoadItem | src/iomapserialize.cpp:134-165 | reads one item and all it holds, or fails, as the byte format says |
| HouseItems.LoadContainer | src/iomapserialize.cpp:116-132 | reads the counted items, each put in front of those before, and the end mark |
| PlayerItems.SaveItems | src/iologindata.cpp:555-613 | the rows describe the forest: roots first, then level by level, sids from 101 without gaps, each row's parent id that of its container |
| PlayerItems.DescribedOrdered | src/iologindata.cpp:555-613 | sids are distinct and rise, every child's sid exceeds its parent's, and none collides with a slot or depot id |
| PlayerItems.LoadSavedRow | src/iologindata.cpp:922-946 | a saved row is loaded as its item, restored, or dropped if its type is unknown |
| PlayerItems.RebuiltNode | src/iologindata.cpp:448-461 | from rows that describe a forest, the tree rebuilt below each row is its tree, restored |
| PlayerItems.RebuiltAll | src/iologindata.cpp:448-461 | and the trees rebuilt below one parent id are all of its trees, in order |
| PlayerItems.RestoredIff | src/iologindata.cpp:439-525 | a restored tree is the original if and only if every item in it survives on its own |
| PlayerItems.RestoredComesBack | src/iologindata.cpp:439-613 | of a tree of a known type, every item that lies in items of known types only comes back in its place, as Items.ReloadedComesBack says |
| PlayerItems.InventoryRoundTrip | src/iologindata.cpp:439-613 | each inventory slot gets back its tree, restored, and the very same tree if and only if every item in it survives |
| PlayerItems.EmptySlot | src/iologindata.cpp:439-461 | a slot from which nothing was saved stays empty |
| PlayerItems.DepotRoundTrip | src/iologindata.cpp:494-613 | each depot chest gets back its trees in their order, restored; the very same if and only if every item survives |
| PlayerItems.SaveAndLoadInventory | src/iologindata.cpp:439-613 | saved and loaded again, each slot of known type holds objects that are its item's tree, restored, in order, with right parents and caches; every other slot is empty; when the trees are the same; and, absolutely, what each item of a tree that is not the same has become |
| PlayerItems.SaveAndLoadDepots | src/iologindata.cpp:494-613 | saved and loaded again, each chest holds objects that are the trees of its depot, restored, in order, with right parents and caches; when they are the same; and, absolutely, what each item of a tree that is not the same has become |
| PlayerItems.Thing.InternalAddThing | src/container.cpp:625-635 | the item goes to the front, its parent is set, and the container's cache grows by its weight modulo 2^32 |
| PlayerItems.LoadItems | src/iologindata.cpp:922-946 | one new object for each row of a known type, under the row's sid |
| PlayerItems.PlaceRow | src/iologindata.cpp:448-460 | walking sids downwards, a row's object is complete when it is put into its parent, and the parent then holds exactly the rows from there on |
| PlayerItems.Player.LoadInventory | src/iologindata.cpp:439-461 | every slot's object holds exactly the tree rebuilt from the rows, with every parent pointer and weight cache right |
| PlayerItems.Player.LoadDepots | src/iologindata.cpp:494-525 | every depot chest holds exactly the trees rebuilt from the rows, with every parent pointer and weight cache right |
| Forests.Perturb | src/container.cpp:111-117 | a change of what one node holds is a change by as much of what each of its holders holds, and of nothing else |
| Forests.AttachForest | src/container.cpp:231-283 | a node without a place, put into one it does not hold, leaves a forest |
| Forests.SiblingsDisjoint | src/container.cpp:231-283 | two items of one container hold nothing in common |
| Containers.UpdateItemWeight | src/container.cpp:111-117 | the caches of the container and of everything around it move by the difference, modulo 2^32, and nothing else changes; it ends because parents form no cycle |
| Containers.WeighsByParts | src/item.cpp:831-840 | a stack weighs what its parts weigh; a single one, and what does not stack, what its attribute says or else its type; a stack of none as much as one |
| Containers.AddedSound | src/container.cpp:430-449 | adding keeps parents, forest and every weight cache right |
| Containers.AddedTotal | src/container.cpp:430-449 | adding an item adds it, with all it holds, to any sum over what its new holders hold |
| Containers.AddedPlaces | src/container.cpp:430-449 | the item stands at its place in the list with the container as its parent, and everything else is where it was |
| Containers.RemovedSound | src/container.cpp:509-542 | removing keeps parents, forest and every weight cache right |
| Containers.RemovedTotal | src/container.cpp:509-542 | removing an item takes it, with all it holds, from what its holders held, and nothing from the item |
| Containers.RemovedHolds | src/container.cpp:509-542 | nothing holds more after a removal than before |
| Containers.ChangedSound | src/container.cpp:462-483 | changing an item in itself keeps parents, forest and every weight cache right |
| Containers.ChangedTotal | src/container.cpp:462-483 | changing an item changes what its holders hold by the difference, and nothing else |
| Containers.ReplacedSound | src/container.cpp:485-507 | replacing keeps parents, forest and every weight cache right |
| Containers.ReplacedTotal | src/container.cpp:485-507 | replacing changes what the holders hold by the difference of the two items |
| Containers.ReplacedPlaces | src/container.cpp:485-507 | the new item stands where the old one stood, the old one has no parent, and everything else is where it was |
| Containers.EnlargedSound | src/container.cpp:41-49 | a new item without a place leaves everything right |
| Containers.InternalAddThing | src/container.cpp:625-635 | the item goes to the front of the list, with parent and all caches updated |
| Containers.AddThing | src/container.cpp:430-449 | likewise, unless the index is past the capacity: then nothing happens at all |
| Containers.AddItemBack | src/container.cpp:451-460 | the item goes to the back of the list, with parent and all caches updated |
| Containers.UpdateThing | src/container.cpp:462-483 | type and count change in place, and the caches by the difference in weight; an item not in the container is left alone |
| Containers.TypeSet | src/item.cpp:252-271 | given another type, an item starts with that type's duration, unmarked, unless its time stood still; or keeps what time it has; or has none on record; and no corpse owner |
| Containers.SubTypeSet | src/item.cpp:331-369 | asked for its subtype an item answers with the one it was given, and nothing else of it has changed |
| Containers.RemoveThing | src/container.cpp:509-542 | a part of a stack is taken off it in place; a whole item leaves the list and loses its parent |
| Containers.ReplaceThing | src/container.cpp:485-507 | the new item takes the old one's place, and the old one loses its parent; no item at the index, no change |
| Containers.GetThingIndex | src/container.cpp:544-554 | the first place of the item, or -1 if it is not there |
| HeapRuns.RunSound | src/container.cpp:41-542 | whatever operations are run, in any order and number, among them moves, clones, new containers and registrations for decay, parents, forest and weight caches stay right |
| HeapRuns.RunKeeps | src/container.cpp:231-283 | in every heap reached no item holds the container it lies in, and each cache is the weight of everything inside modulo 2^32 |
| ContainerClones.Clone | src/container.cpp:41-49 | new objects whose tree is the copy of the container's tree, holding nothing that was there before; nothing that was there changes |
| ContainerClones.CopyGoesOn | src/container.cpp:44-46 | each round puts the copy of one more item at the end of the clone |
| ContainerClones.CopyEnds | src/container.cpp:41-49 | with the cache copied last the clone is complete |
| ContainerClones.CopyWeight | src/item.cpp:179-191 | a copy weighs as much as its item: by its own attribute, or by its type, whose substitute weighs the same |
| ContainerClones.CopiedFace | src/item.cpp:179-191 | a copy has type, count and attributes of its item, marked as decaying if it has time left |
| ContainerClones.CopyOrderly | src/container.cpp:41-49 | in the copy of a tree with right caches every cache is right, at every depth |
| ContainerClones.CloneSound | src/container.cpp:41-49 | a clone in a sound heap leaves it sound: the caches copied are right for the copies |
| ContainerClones.AddItem | src/container.cpp:60-64 | the item goes to the back of the list and gets its parent, without the caches |
| LevelOrder.QueueIsLevels | src/container.cpp:644-677 | a queue that replaces its front by that one's children at its back lists level by level |
| LevelOrder.BelowInLevels | src/container.cpp:644-677 | the level order lists everything below a node, each node once |
| ContainerIterators.ContainerIterator.constructor | src/container.cpp:644-652 | the iterator starts with the container's own items queued |
| ContainerIterators.ContainerIterator.Advance | src/container.cpp:659-677 | the current item leaves the front of the queue and its own items join the back |
| ContainerIterators.InsideExactly | src/container.cpp:644-677 | each item inside the container is listed exactly once, and nothing else is |
| ContainerIterators.InsideSum | src/container.cpp:644-677 | sums over the listing are sums over everything inside |
| ContainerIterators.GetItemHoldingCount | src/container.cpp:164-171 | the items seen are exactly those inside, in level order, and the count is their number |
| ContainerIterators.IsHoldingItem | src/container.cpp:173-181 | true exactly for the items inside, at any depth |
| ContainerQueries.IsAround | src/container.cpp:250-260 | climbing the parents finds an item exactly when it holds the container |
| ContainerQueries.QueryAdd | src/container.cpp:231-283 | which answer is given: not to be picked up, around the container, no room, refused by the carrier, or none of these |
| ContainerQueries.FreeStackRoom | src/container.cpp:304-314 | the room on all stacks the item can join |
| ContainerQueries.QueryMaxCount | src/container.cpp:285-336 | free slots and stack room for the item, and whether they are enough |
| ContainerQueries.RoomIs | src/container.cpp:285-336 | room and what lies on the stacks that take more come to a hundred for each free slot and each of these stacks; at a named place only the stack there counts; of what does not stack there is room for one in each free slot |
| ContainerQueries.QueryRemove | src/container.cpp:338-358 | whether so many can be taken out of the container |
| ContainerQueries.QueryDestination | src/container.cpp:360-423 | the container, place and stack an item really goes to |
| MoveItem.TakenUnits | src/game.cpp:1109-1112 | taking out lowers the units in the source and all around it by what leaves, and nothing else |
| MoveItem.MergedUnits | src/game.cpp:1114-1124 | the destination and all around it gain the units that go onto the stack |
| MoveItem.ArrivedUnits | src/game.cpp:1126-1142 | and then the units, or the item with everything in it, that are put into it |
| MoveItem.MovedUnits | src/game.cpp:1109-1142 | conservation: everything around the source loses exactly the units that leave, everything around the destination gains exactly as many, for every kind of item |
| MoveItem.MoveConserves | src/game.cpp:1109-1142 | what is around both source and destination holds as many units as before |
| MoveItem.MovedWeight | src/game.cpp:1109-1142 | a move conserves weight: what is around the source is lighter by exactly what leaves, what is around the destination heavier by as much, but for one unit where a stack of none is filled |
| MoveItem.MovedSound | src/game.cpp:1109-1142 | a move keeps parents, forest and caches right, stacks at 100 or less and containers within capacity |
| MoveItem.SettledPlace | src/game.cpp:1016-1027 | the place a move settles on is within the capacity of its container, and a stack named is the item at that place |
| MoveItem.SettledIs | src/container.cpp:360-423 | where an item settles: asked to move up, in the parent if there is one; at a container, inside it; on the first like stack with room, if it is not in that container already and stacking is not to be ignored; else at the place asked for |
| MoveItem.SlotForRest | src/container.cpp:285-336 | whenever a slot is needed for what does not fit onto the stack, one is free |
| MoveItem.PlanChecks | src/game.cpp:1034-1107 | what moves has passed every check; of a stack it is the lesser of what was asked for and what there is room for |
| MoveItem.PlanIff | src/game.cpp:1034-1107 | something moves if and only if the place takes the item and has room for at least one, the item is in the source and may be taken out, and what is traded is not around the place; of a stack the lesser of what was asked for and what there is room for; and the answer is no error exactly if that is all that was asked for, or the item would be put onto itself |
| MoveItem.PlanMoves | src/game.cpp:1034-1107 | whatever the checks let move can be moved: nothing overflows, no cycle arises, and the index is never one that is silently dropped |
| MoveItem.Settle | src/game.cpp:1016-1027 | the loop over destinations ends on the second answer, long before its bound |
| MoveItem.MarkedSound | src/game.cpp:1175-1181 | registering an item for decay keeps parents, forest, caches, stacks and capacities right |
| MoveItem.MarkedUnits | src/game.cpp:1175-1181 | and changes no number of units and no place |
| MoveItem.Checks | src/game.cpp:1014-1107 | the answer, the amount and the place decided by all the checks |
| MoveItem.MoveQueuesOnce | src/game.cpp:1128-1181 | a move queues at most one item for decay, once, and none that is registered already |
| MoveItem.MoveQueueIs | src/game.cpp:1128-1181 | an item moved whole is queued if it has time left, is unmarked and no error is answered; the copy of a stack with time left in any case |
| MoveItem.CopyIs | src/item.cpp:179-191 | a copy of a stack has its type and attributes, marked as decaying if it has time left; without attributes it is as newly made |
| MoveItem.InternalMoveItem | src/game.cpp:1011-1184 | something moves if and only if every check passes and there is room for at least one; then exactly the lesser of count and room of a stack, or the item with all inside it, has left everything around the source and is in everything around the destination; no error exactly if that is all that was asked for, or the item would be put onto itself; the whole heap afterwards and what is queued for decay; without an amount nothing changes |
| MoveItem.InternalRemoveItem | src/game.cpp:1276-1315 | refused without change, also by the item's own class; or tested without change; or exactly so many are taken out |
| AddItem.SlotAdds | src/game.cpp:1258-1265 | an item put into a free slot is all added |
| AddItem.MergeAdds | src/game.cpp:1225-1257 | a stack that fits onto another is all added |
| AddItem.CopiesAlikeIff | src/item.cpp:179-191 | a copy of a stack has its attributes if and only if it has no time left or is registered for decay already, or has no attributes and is as created |
| AddItem.SplitAccepts | src/game.cpp:1231-1239 | after filling one stack there is still room for all that is left, so that the rest is accepted in its turn if its copy is like it |
| AddItem.SplitAdds | src/game.cpp:1231-1239 | adding the rest completes what filling the stack began, and loses no more than the rest does |
| AddItem.SplitLoses | src/game.cpp:1235-1238 | if the rest is refused, all but exactly the rest is in the container |
| AddItem.FiledRight | src/game.cpp:1220-1271 | what is accepted is in the container but for the units lost, stacks at 100 or less, the container within capacity; and nothing is lost of a stack whose copies are alike |
| AddItem.AcceptsIff | src/game.cpp:1193-1223 | an item is accepted exactly if it can be picked up, does not hold the container, and the free slots and the like stacks have room for all of it |
| AddItem.FiledGrows | src/game.cpp:1220-1265 | the container lists one item more at most |
| AddItem.ReportedIsLost | src/game.cpp:1235-1238 | what is reported as not added is exactly what is lost, or nothing; and all of it if no rest was accepted on the way |
| AddItem.NothingQueued | src/game.cpp:1231-1271 | nothing is queued for decay of what has no time left and whose copies are alike |
| AddItemLosses.FortyAreLost | src/game.cpp:1231-1239 | two stacks of sixty in two slots, and eighty with a second left: all eighty are accepted, forty are lost and reported |
| AddItemLosses.NeverLostIff | src/game.cpp:1193-1274 | for every stack that can be split: no container ever loses any of it if and only if its copies are alike: having attributes, it has no time left or is registered for decay already; having none, it is as it would be created |
| AddItem.CopiesQueuedTwice | src/game.cpp:1231-1271 | of a stack with time left of which nothing is lost, each copy made on the way is queued for decay exactly twice, and the stack itself once |
| AddItem.InternalAddItem | src/game.cpp:1193-1274 | an error and no change, or every unit added but those lost with a refused rest, which is reported for the first split only; nothing is lost of a stack whose copies are alike; what is queued for decay, in order and as often as it is; accepted exactly when there is room for all of it |
| Money.WorthIsUnits | src/item.cpp:1559-1574 | what the coins inside a container are worth is the number of each kind times its value |
| Money.HandOver | src/game.cpp:1472-1479 | a stack of coins goes into the container if there is a free slot, or room for all of it on like stacks; exactly if not it lies on the ground, whole; the container lists one item more at most |
| Money.CoinFits | src/game.cpp:1472-1479 | a new stack of coins is accepted exactly if there is a free slot or the like stacks have room for all of it |
| Money.AddMoney | src/game.cpp:1463-1504 | the container and the coins dropped gain exactly the amount, as amount div 10000 crystal coins, amount mod 10000 div 100 platinum coins, and the rest in gold; with a free slot for each stack of at most a hundred nothing is dropped, and the container is worth the whole amount more; only coins of denominations up to the amount change |
| Money.GatherOne | src/game.cpp:1414-1418 | each coin is entered once, by its worth, cheapest first |
| Money.SearchStep | src/game.cpp:1422-1437 | the queue of containers goes through everything inside, each item once |
| Money.CollectCoins | src/game.cpp:1394-1437 | the coins found are exactly those inside at any depth, each once, and their sum is what the container is worth |
| Money.Covers | src/game.cpp:1448-1453 | the coins taken for a price cover it, there are enough of them, and what they leave over is less than one of them |
| Money.PayStep | src/game.cpp:1443-1458 | paying with the cheapest stack keeps the rest of the coins worth at least the rest of the price |
| Money.PayOne | src/game.cpp:1443-1458 | the next cheapest stack goes whole and paying goes on, or ends with it; or it is worth more than what is owed |
| Money.Break | src/game.cpp:1448-1454 | breaking a stack against change costs exactly what was still owed: the fewest coins that cover it go, and the change comes in the largest coins, dropped only for want of room |
| Money.RemoveMoney | src/game.cpp:1384-1461 | paid exactly when the container is worth the price, else nothing has changed; then container and dropped change have lost exactly the price: the cheapest stacks have gone whole, as far as they come to no more than it, and of the next the fewest coins that cover the rest, against change in the largest coins, of which none is dropped if there is a slot for each stack |
| Trade.Bookkeeping | src/game.cpp:2415-2446 | partners name each other, no item is offered twice, the register has exactly the offered items with their owners |
| Trade.StartedSound | src/game.cpp:2415-2446 | a request or counter-offer keeps the bookkeeping of all players |
| Trade.AcceptedSound | src/game.cpp:2448-2539 | an acceptance, and the exchange or close it leads to, keeps it |
| Trade.ClosedSound | src/game.cpp:2638-2680 | a close keeps it and touches no third player |
| Trade.CleanedSound | src/game.cpp:4331-4334 | giving released references back keeps every counter right |
| Trade.RunSound | src/game.cpp:2306-2680 | in every state of every run of requests, acceptances, closes and cleanups by any number of players: links symmetric, idle exactly without partner, no item in ACKNOWLEDGE, TRANSFER never left behind, register and reference counters right |
| Trade.HandedOnlyByBoth | src/game.cpp:2448-2539 | items change hands only in an acceptance by a player who has offered, from a partner who has offered and accepted; exactly the two offered items, each to the other side |
| Trade.HandedIff | src/game.cpp:2448-2539 | an acceptance hands the items over if and only if both have offered, the partner has accepted, the player had not, the partner is in sight, the script allows it, both items fit and can be taken, and the first move succeeds |
| Trade.ConsentOutcome | src/game.cpp:2448-2539 | an acceptance that does not count changes nothing; the first of two leaves nobody idle and changes only the player's state; the second leaves both idle and both offers off the register, whether or not the items change hands |
| Trade.RequestOutcome | src/game.cpp:2415-2446 | a request goes through exactly if both are idle or this very partner has asked; then the item is offered and registered, and an idle partner is asked |
| Trade.CloseOutcome | src/game.cpp:2638-2680 | a close makes both idle and takes exactly their offers off the register, each to be given back once |
| Trade.CleanupOutcome | src/game.cpp:4331-4334 | after a cleanup an item's counter shows one more than without trades exactly if it is offered |
| Trade.Game.PlayerRequestTrade | src/game.cpp:2306-2413 | starts a trade exactly when the partner is another player, every check passes and no item in trade is the item, inside it or around it |
| Trade.Game.InternalStartTrade | src/game.cpp:2415-2446 | which requests are refused, and the state after the others |
| Trade.Game.PlayerAcceptTrade | src/game.cpp:2448-2539 | the state after an acceptance, in every case |
| Trade.Game.InternalCloseTrade | src/game.cpp:2638-2680 | both sides are idle and neither item is registered |
| Trade.Game.CleanupItems | src/game.cpp:4331-4334 | each released item gives back as many references as it was released times |
| Decay.IsLooked | src/game.cpp:4200-4238 | an item in the bucket looked at is dropped, decays, moves to the next bucket or stays, by its own duration alone |
| Decay.TickedPlaces | src/game.cpp:4200-4242 | a tick leaves an item that is in its one place, or in none, so |
| Decay.StepInPlaceIff | src/game.cpp:4166-4345 | a step leaves an item in its one place, or in none, if and only if it neither queues it again nor gives it a new duration while it is decaying |
| Decay.StepPlaced | src/game.cpp:4166-4345 | a step keeps every decaying item in exactly one place and all others in none if and only if it disturbs none of them so |
| Decay.SettledSits | src/game.cpp:4336-4344 | a cleanup puts an item waiting once into one bucket, looked at next if it has less than a second to go, else in four ticks |
| Decay.SettledSitsTwice | src/game.cpp:4336-4344 | an item waiting twice is put into that bucket twice |
| Decay.TickedSits | src/game.cpp:4200-4242 | the tick an item is due in decays it once; any other brings it one tick nearer, still in one bucket |
| Decay.DecaysOnTime | src/game.cpp:4166-4345 | whatever happens to other items, also if they are queued twice or reset: an item not itself queued again, reset or forbidden to decay while it decays has not decayed before its tick, and from then on has decayed exactly once |
| Decay.OnceDecays | src/game.cpp:1267-1271 | an item queued once, by an addition, decays exactly once, at the tick for its duration |
| Decay.ForbiddenLeaves | src/game.cpp:4200-4214 | an item that can no longer decay leaves the wheel when its bucket is next looked at, and has not decayed |
| Decay.DecayedOnce | src/game.cpp:4200-4242 | what cannot decay, or has decayed, does not, wherever it is queued, unless something else is made of it |
| Decay.QueuedRuns | src/game.cpp:1231-1271 | being queued once or twice, and placed by the next cleanup, are runs of the wheel |
| Decay.StartedOnce | src/game.cpp:4166-4184 | starting an item twice is starting it once; one with time left is queued as by an addition, one without decays at once; one unable, or decaying, is left alone |
| Decay.IsLookedTwice | src/game.cpp:4200-4238 | an item twice in the bucket looked at ages twice, and meets the fate of each look |
| Decay.TwiceDecays | src/game.cpp:1231-1271 | an item queued twice, by the making of a copy and the addition of it, decays exactly once, at a tick that comes twice as fast |
| Decay.TwiceFurtherIs | src/game.cpp:4206-4234 | with D of a second or more that tick is number 4 * ((D + 1000) div 2000), and one later if (D + 1000) mod 2000 is 1875 or more |
| Decay.TwiceOnTimeIff | src/game.cpp:4206-4234 | so it is never later than for an item queued once, and the same, and less than 875 milliseconds early, if and only if D is less than 1875 |
| Decay.ThreeSecondsInTwo | src/game.cpp:1231-1271 | three seconds queued twice have decayed after two, queued once not |
| Decay.RenewedStartsTwice | src/item.cpp:253-271 | given a new duration in its bucket an item stays there unmarked, and when it is started it is queued a second time |
| Decay.FurtherIs | src/game.cpp:4216-4234 | with D of a second or more that tick is number 4 * (D div 1000), and one later if D mod 1000 is 875 or more |
| Decay.Punctual | src/game.cpp:4216-4234 | so, in one place, it decays never late and less than 875 milliseconds early |
| Decay.Game.StartDecay | src/game.cpp:4166-4184 | an item already decaying, or not able to, is left alone; any other waits for a bucket or decays at once |
| Decay.Game.Enqueue | src/game.cpp:1267-1271 | what has time left is marked and waits for a bucket, whether it does already or not |
| Decay.Game.SetId | src/item.cpp:253-271 | the duration is taken away or is a new one, and the mark is off; the buckets are not asked |
| Decay.Game.Look | src/game.cpp:4206-4238 | one item's turn in the loop |
| Decay.Game.CheckDecay | src/game.cpp:4200-4242 | one tick of the wheel |
| Decay.Game.Cleanup | src/game.cpp:4336-4344 | every waiting item goes into its bucket, in order |
| WalkCache.StepRight | src/creature.cpp:489-568 | every step but a diagonal one to the south keeps every entry right |
| WalkCache.StepRightAt | src/creature.cpp:489-568 | and after such a diagonal step the new column and all rows but the first and last are right |
| WalkCache.SouthRightIff | src/creature.cpp:519-565 | after such a step the whole table is right if and only if the tiles of the first and last rows answer like the ones beside them |
| WalkCache.RightWhateverTheMap | src/creature.cpp:489-568 | a step keeps right tables right on all maps if and only if it is not a diagonal one to the south |
| WalkCache.RunAnswers | src/creature.cpp:290-352 | after any run of other steps, jumps and changes of tiles every answer is what the map says then: for a position on the floor and within eleven in both directions 1 or 0 as the creature can step there or not, 1 for its own, 0 on another floor, 2 beyond |
| WalkCache.RightAnswers | src/creature.cpp:323-352 | a right table answers 1 where the map can be stepped on and 0 where not, 1 for the own position, 0 on another floor, 2 beyond the viewport |
| WalkCache.RefreshedRight | src/creature.cpp:290-304 | a fresh table is right |
| WalkCache.Creature.UpdateMapCache | src/creature.cpp:290-304 | every entry about a position on the map is asked for; entries that wrap around its edge are left alone |
| WalkCache.Creature.GetWalkCache | src/creature.cpp:323-352 | the answer for a position; while the table is right, what the map says |
| WalkCache.Creature.MoveRows | src/creature.cpp:495-517 | rows shifted, and the row that came into view asked for |
| WalkCache.Creature.MoveColumns | src/creature.cpp:519-565 | columns shifted in the rows from the distance moved on, and the new column asked for |
| WalkCache.Creature.OnCreatureMove | src/creature.cpp:489-568 | the whole table after the creature's own move |
| Conditions.SumsSplit | src/creature.cpp:1159-1183 | the speed and skill changes on record fall by just one condition's when it goes |
| Conditions.Creature.AddCondition | src/creature.cpp:1115-1144 | one condition for each type, id and subId; speed and skills are what they were without conditions plus what is on record; a condition there already takes over the new data; put off exactly is haste while the creature walks with a paralysis in force, unless forced |
| Conditions.Creature.Refresh | src/condition.cpp:338-361 | the old effect ends and the new one sets in, or nothing changes |
| Conditions.Creature.RemoveCondition | src/creature.cpp:1159-1211 | exactly the conditions of the kind, and of the id if one is given, go and their effects end; paralysis not before the creature has stopped walking, unless forced |
| Conditions.Creature.RemoveOne | src/creature.cpp:1227-1247 | likewise for one condition |
| Conditions.Creature.ExecuteConditions | src/creature.cpp:1269-1288 | all conditions age, those whose time is over end, and speed and skills follow |
| Conditions.Creature.HasCondition | src/creature.cpp:1290-1307 | true exactly if one of the kind and subId is in force and the kind is not suppressed |
| Conditions.Creature.OnAddCondition | src/creature.cpp:993-1000 | haste and paralysis end each other |
| Conditions.OppositeEnds | src/creature.cpp:993-1000 | after a new paralysis no haste is in force, and after a new haste no paralysis, unless the creature still walks |
| Conditions.LastsItsTime | src/condition.cpp:135-144 | a condition begun at n for t milliseconds is in the list at every execution up to n + t, with its effect, in force exactly till then, and gone at the first execution after |
| Conditions.LastsForever | src/condition.cpp:135-144 | a condition without end stays, whatever time passes, and is in force at any |
| Conditions.RefreshedEnd | src/condition.cpp:275-361 | added anew, a condition without end is not cut short, a speed change starts over, and anything else lasts as long as the longer of the two |
| Conditions.AddedThere | src/creature.cpp:1115-1144 | an addition not put off leaves all other conditions but the opposite; a new one begins and is there, one there already is refreshed |
| Conditions.BegunIs | src/condition.cpp:338-430 | a speed change of none is rolled, a percentage of a player's skill is worked out, any other effect is as given |
| DamageList.NearerIff | src/condition.cpp:1241-1247 | the inner loop goes on exactly while more than half a hit is still missing |
| DamageList.RoomBelow | src/condition.cpp:1236-1240 | what is due after a value leaves room for one hit of each smaller one |
| DamageList.GenerateDamageList | src/condition.cpp:1232-1250 | hits fall from start to 1; each value occurs once, and again as long as more than half a hit of it is missing from the share due by then; they add up to the damage or more, and to exactly the damage if and only if one hit of each value is no more than it |
| Areas.TurnBack | src/combat.cpp:1167-1184 | turning back undoes turning |
| Areas.TurnsCompose | src/combat.cpp:1167-1184 | two quarter turns make the half turn, three the turn to the west |
| Areas.TurnsClockwise | src/combat.cpp:1167-1184 | a quarter turn brings what lies ahead, to the north, to the east |
| Areas.TurnFits | src/combat.cpp:1143-1187 | every write falls inside the square twice as wide as the longer side |
| Areas.SourceIff | src/combat.cpp:1173-1187 | no two cells of the input are written to the same cell |
| Areas.CopyArea | src/combat.cpp:1143-1191 | the cells set around the new centre are exactly the turned cells set around the old one |
| Areas.CreateArea | src/combat.cpp:1194-1225 | a cell is set exactly if its entry in the list, row by row, is 1 or 3, and the last 2 or 3 is the centre, or else the corner |
| Areas.SetupArea | src/combat.cpp:1227-1250 | what is so far below and to the right of the centre for the north lies turned clockwise by one, two and three quarters for the east, south and west |
| DatabaseTasks.StepAccounted | src/databasetasks.cpp:34-105 | every critical section keeps accepted = taken then queued, and taken = finished and running |
| DatabaseTasks.AcceptedAre | src/databasetasks.cpp:53-67 | the tasks accepted in a run are exactly those added before the first stop or shutdown, in order |
| DatabaseTasks.EachTaskOnce | src/databasetasks.cpp:34-96 | in every interleaving, the worker's unlocked look at the state being a step of its own, each task added before the first stop or shutdown is taken once, in order, and is then finished or being run, or is still queued |
| DatabaseTasks.EmptyForGood | src/databasetasks.cpp:86-105 | once a shutdown has returned the queue is empty and stays so, and nothing more is accepted |
| DatabaseTasks.LeavesOnShutdown | src/databasetasks.cpp:34-51 | the worker leaves its loop only once a shutdown has begun; and after one, unless a stop follows, it leaves when it next looks at the thread's state |
| DatabaseTasks.OrderIff | src/databasetasks.cpp:34-96 | as long as no further task is taken, those accepted finish in order whatever happens if and only if at most one is running |
| DatabaseTasks.RunOrderIff | src/databasetasks.cpp:34-96 | in a run, tasks finish in the order accepted at every point and however those running finish if and only if each was taken while none was running |
| DatabaseTasks.FlushOvertakes | src/databasetasks.cpp:86-96 | a flush beside the worker can let a later task finish first |
| DatabaseTasks.Tasks.AddTask | src/databasetasks.cpp:53-67 | the task is queued exactly while the thread is running, and the worker signalled if the queue was empty |
| DatabaseTasks.Tasks.WorkerChecks | src/databasetasks.cpp:37-37 | the thread's state, read without the lock, decides whether the worker goes on |
| DatabaseTasks.Tasks.WorkerLooks | src/databasetasks.cpp:38-45 | past that check, whatever has happened since, the worker waits or takes the first task |
| DatabaseTasks.Tasks.WorkerWakes | src/databasetasks.cpp:39-49 | woken with or without a reason, the worker takes the first task or looks again |
| DatabaseTasks.Tasks.Shutdown | src/databasetasks.cpp:98-105 | the thread is terminated before the flush |
| DatabaseTasks.Tasks.FlushTakes | src/databasetasks.cpp:86-96 | the flush takes the first task, or is done when there is none |

## Left out

- Client messages, spectators, effects and the scripts' own actions: they do not change the modelled state.
- SQL, sockets, XML and configuration: rows of the database are sequences, and its failures are not modelled.
- Custom attributes and unique ids of items, and the special readers of beds, doors, teleports and depot lockers (`src/item.cpp:371-664` delegates to them).
- ContainerClones.Clone: items whose class adds something of its own to `Item` when created (beds, doors, teleports, fields); containers made of types that are no containers (`Item::CreateItemAsContainer`), whose clone the source casts to a container it is not. `ContainerClones.Catalogue.Paired` asks of the catalogue that the types created as another weigh as much as that one, as they do in `data/items/items.xml`, and that fluids do not stack.
- The tile-level loops of house saving, and stationary items that are looked up on the tile instead of created (`src/iomapserialize.cpp:167-214`).
- The depot locker loop (`src/iologindata.cpp:463-491`), which differs from the depot loop in the objects it fills and in a filter when saving; the 32-bit running id of a save; the player as the parent of equipped items.
- PlayerItems.Thing.InternalAddThing: a container that lies in no other, as all do that are filled while ids are walked downwards; `Containers.InternalAddThing` is the general one.
- Containers.UpdateItemWeight: differences are unbounded integers; the source's conversions between signed and unsigned 32 bits keep their residues, which are all that the caches show.
- ContainerQueries.QueryAdd: the topmost parent's answer is a function of the count alone, and is taken to be consent where a container is topmost.
- MoveItem.InternalMoveItem: moves without `FLAG_NOLIMIT` and between containers, so that `NEEDEXCHANGE` (`src/game.cpp:1036-1066`) never arises; the release of an item merged away is not part of the heap, and `FLAG_CHILDISOWNER` is part of the carrier's answer. Stackable items are taken to hold nothing, to be no fluids and not of a type created as another.
- AddItem.InternalAddItem: the default index, no `FLAG_NOLIMIT`, and a carrier that refuses nothing. With a carrier that counts what it has already been given the rest of a split stack can be refused after part of it has been added; the source then reports the rest through its last parameter.
- Money.AddMoney: amounts below 2^32, beyond which the 32-bit product at `src/game.cpp:1470` wraps; coins dropped are recorded, not placed on a tile.
- Decay.Game.SetId: the type itself; an item whose duration is taken away or replaced has the new duration and ability to decay.
- Money.RemoveMoney: the cylinder paid from is a container; a rounded-up division of doubles is one of integers, which agree for these amounts.
- Trade.Game.PlayerAcceptTrade: whether the two moves of an exchange succeed is a parameter, and the result of the second, which the source ignores, is not recorded.
- Trade.Game.PlayerRequestTrade: house transfers (`src/luascript.cpp:10316-10360`), which start a trade without these checks.
- Decay.Game.InternalDecayItem: what an item decays into starts as another item, so that an entry left behind by one queued twice finds it no longer able to decay; an item removed while in a bucket is one that can no longer decay.
- WalkCache.Creature.OnCreatureMove: only the creature's own moves; other creatures' moves are changes of two tiles.
- Conditions.Creature.AddCondition: skills only, not stats, the defence switch or damage; percentages and dice are parameters; 32-bit overflow of speed and skills; the scheduled calls that repeat a deferred addition or removal are calls with `force`.
- DamageList.GenerateDamageList: exact arithmetic, so neither single-precision rounding nor 32-bit overflow of the product.
- Areas.CopyArea: the three turns; copying, mirroring and flipping (`src/combat.cpp:1117-1142`), of which the last two swap rows and columns in the centres of areas that are not square.
- Areas.CreateArea: lists whose length is a multiple of the number of rows; others would be written past the matrix.
- DatabaseTasks.RunOrderIff: runs in which no two tasks accepted are the same.
- DatabaseTasks.EachTaskOnce: safety only, not that the worker is woken in time; what a task does to the database.
- Chat channels, guilds, spells, spawns, pathfinding, light and the other protocols of the server.
