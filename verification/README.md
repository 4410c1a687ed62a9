# Verified model of the IEC 104 slave and its JSON library

The repository holds a slave station for IEC 60870-5-104 (`104_slave`) and the JSON library it
reads its configuration with (`json-c-master`). This project models the stateful core of both in
Dafny and proves properties that hold over all inputs or over whole runs.

| file | models |
|---|---|
| `Json`, `JsonPrint`, `Tokener`, `TokenerFeed` | JSON trees, the printers, the tokener as a step function over its stack and scratch fields |
| `RoundTripScalars`, `RoundTrip`, `Parsing`, `ParsingLimits` | parsing printed text, whole and in chunks; the depth limit; success |
| `CallBoundaries`, `TokenerReset`, `NextDocument` | any text cut at any place; a tokener after a reset and after a success |
| `UnicodeEscapes` | `\u` escapes, surrogates and UTF-8 |
| `JsonTokener` | the tokener as a class with fields changed in place, proved to do what the step function does |
| `LinkHash`, `LinkHashTable` | the linked hash table and the object layer on top of it |
| `References`, `ObjectPut` | reference-counted graphs and their iterative release |
| `RwLock` | the readers/writer lock of the point table |
| `WorkQueue`, `WorkerProtocol` | the client work queue and its worker |
| `ActiveUpload`, `Replication`, `UploadReplication` | the upload area, the per-client delta protocol, and the two together |
| `SoeTransfer`, `SoeScheduler` | the event ring and its transfers, and the two on the upload area |
| `RemoteControl`, `RemoteAdjust`, `Iec104` | select before operate for commands and setpoints |
| `HistoryPaging` | keyset paging of history records |
| `Segmentation` | cutting point lists into frames, decoding them again, and the payload of word frames |
| `Json5Comments`, `Json5Keys` | the JSON5 preprocessor |

`dafny verify dfyconfig.toml` checks everything.

Code that changes things in place is a class or a method with loops, proved against a function of
the old state; what the code is for is then proved about those functions. A few invariants with many
quantifiers (such as `LinkHashTable.Stands` and `ActiveUpload.Kept`) carry a counter, so that the
methods hold them as one fact and only small lemmas open them.

## Where the code differs from what it promises

- **Number state across calls.** The state inside a number is rebuilt from the saved text at the
  start of a call, and not completely. With a boundary before it, a minus sign after digits joins
  the number, which it does not in one call (`CallBoundaries.MinusAfterCut`); a plus sign after a
  decimal point no longer does (`CallBoundaries.PlusAfterCut`); and a letter i after a negative
  number is taken for -Infinity (`CallBoundaries.LetterAfterCut`). Nothing else differs
  (`CallBoundaries.CutShowsIff`).
- **Success inside a comment.** A NUL inside a comment after a finished element ends the call with
  success and that element, although its container is open (`ParsingLimits.OpenComment`). In an open
  container this is the only way to succeed (`ParsingLimits.OpenSuccessIff`,
  `ParsingLimits.OpenTextSuccessIff`).
- **Further documents.** A success resets the levels "so we parse additional objects", but not the
  depth. After a success inside an open container the tokener is not ready for another document
  (`NextDocument.CommentNotReady`); after any other success it is, and reads as a new one
  (`NextDocument.ReadyIff`, `NextDocument.NextAsNew`). The call that follows the first kind is not
  modelled.
- **Reset.** `json_tokener_reset` keeps a pending high surrogate, which then spoils the next text
  (`TokenerReset.LeakyReset`). Without one, and only then, the tokener is as new
  (`TokenerReset.ResetIff`).
- **Return value of `json_object_put`.** `json_object.h` promises 1 if the object was freed; the code
  returns 1 exactly if this was the last reference and the object had slots
  (`ObjectPut.FreedLeafReturnsZero`, and the exact condition in `ObjectPut.ObjectHeap.Put`).
- **`lh_table_resize`.** Called directly with a size below the load it leaves a recorded size that is
  not the array length (`LinkHashTable.LhTable.Resize`, `LinkHashTable.LhTable.ShrinkExample`). The
  growth inside an insertion never does.
- **Reconnect during a send.** The end of a send moves the version of whatever connection the client
  context then has, so a master that reconnects in between may count as up to date without having
  received anything (`Replication.ReconnectLosesEntry`, `Replication.ReconnectInHead`). It does if
  and only if an entry as old as the snapshot is still pending (`Replication.StaleFinish`, and over
  runs `Replication.Replicated`).
- **Order of events.** A transfer reads the event ring in slot order, so newer events can come before
  older ones (`SoeTransfer.NewerComesFirst`). They do if and only if the waiting events go round the
  end of the ring (`SoeTransfer.InOrderIff`, and for the whole history
  `SoeTransfer.DeliveredInOrderIff`); a ring that was filled exactly is still read in order.
- **Ranges of addresses.** The range loops compare addresses as `int`. A range that ends at the largest
  `int` lets a frame run on to the next address, which is below the range (`Segmentation.TopCrossed`);
  no other range does (`Segmentation.CoverIff`).
- **Query limit.** A configured limit below a page ends the history transfer after the first page
  (`HistoryPaging.SentAllIff`, `HistoryPaging.SmallLimitStopsEarly`).

## Conventions

- Pointers are numbers and NULL is -1. Strings are sequences of characters, one per byte.
- Versions, clocks, counts and identifiers of 64 bits are natural numbers; setpoint values are reals.
  32-bit addresses wrap where frames are cut, words and octets are cut where payloads are built, and
  `int` sizes of the hash table end at `INT_MAX`.
- The load factor 0.66 is the fraction 33/50; for every `int` size the double comparison of the source
  gives the same answer.
- The output adapter being connected, the clock, and the moment a client goes down are parameters. A
  send is an entry in a log.
- A selection of a point is not tied to the client that made it, as in the source, so traces mix the
  messages of all clients.
- What runs under the queue lock or the upload lock is one step; a semaphore post after it is another.

## Model

| member | source | states |
|---|---|---|
| `Parsing.ParsePrinted` | json-c-master/json_tokener.c:317-1370 | Parsing the printed, NUL-terminated text of any double-free tree whose nesting fits max_depth succeeds and gives a value that json_object_equal accepts, for all print flags modelled and for strict and non-strict tokeners. |
| `Parsing.ParsePrintedChunks` | json-c-master/json_tokener.c:284-300 | The same text in any sequence of chunks reaches the value of the whole; every call before the one that completes the value returns "continue". |
| `Parsing.ChunksFrom` | json-c-master/json_tokener.c:1329-1370 | From any point inside the text of a value: the remaining chunks end in success with that value, and at the chunk that completes it. |
| `CallBoundaries.CutShowsIff` | json-c-master/json_tokener.c:953-1044 | For every reachable tokener, every text and every cut where the first call returns "continue": the call on the rest returns what one call on the whole would, on the rest and on every beginning of it, if and only if the cut does not fall, inside a number, directly before a minus sign that only the rebuilt flags allow, before a plus sign that only the lost ones allow, or before the first letter of -Infinity after more than the sign, or one character before that letter. |
| `CallBoundaries.BoundaryStep` | json-c-master/json_tokener.c:953-1044 | For one character: in every state of a number a call boundary changes the outcome exactly on those three characters. |
| `CallBoundaries.QuietCut` | json-c-master/json_tokener.c:317-1370 | A cut that falls before none of them changes nothing. |
| `CallBoundaries.QuietChunks` | json-c-master/json_tokener.c:284-300 | Any text in any number of chunks with no such cut: the call that ends the parse returns what one call on all the text so far would. |
| `CallBoundaries.MinusAfterCut` | json-c-master/json_tokener.c:953-1021 | "1-" is a document with a character after it in one call; with a boundary before the sign the number goes on. |
| `CallBoundaries.LetterAfterCut` | json-c-master/json_tokener.c:957-1044 | "-1i" is the document -1 with a character after it in one call; with a boundary before the letter or before the digit the letter is taken for the beginning of -Infinity. |
| `CallBoundaries.PlusAfterCut` | json-c-master/json_tokener.c:966-1021 | After a call on "1" the text ".+" goes on with the number in one call; with a boundary before the sign the number is over. |
| `ParsingLimits.ParsesIffShallow` | json-c-master/json_tokener.c:1154-1165 | The printed text of a tree parses if and only if its nesting is at most max_depth; otherwise the result is the depth error, whatever the shape of the tree. |
| `ParsingLimits.SuccessClosesAll` | json-c-master/json_tokener.c:1329-1370 | Success means that the value is finished and no container is open, the outermost included, except when the text ended with NUL in a comment directly after a finished element or member. |
| `ParsingLimits.OpenSuccessIff` | json-c-master/json_tokener.c:615-631 | For every state with a container open, between its elements, in a key, in a comment or below it, a NUL ends the call with success if and only if it stands in a comment after a finished element or member; the element is then returned. |
| `ParsingLimits.OpenTextSuccessIff` | json-c-master/json_tokener.c:317-1370 | The same for whole texts: a call on a text with a NUL after it, from any state in which the text leaves a container open, succeeds if and only if the text ends in such a comment. |
| `ParsingLimits.OpenComment` | json-c-master/json_tokener.c:615-631 | Two such texts: an array with one number followed by a comment that is not closed, of either kind. |
| `NextDocument.ReadyIff` | json-c-master/json_tokener.c:1356-1365 | A success leaves a tokener ready for the next document if and only if it did not come inside an open container and no high surrogate from before a reset is left; one that was clean before has none. |
| `NextDocument.NextAsNew` | json-c-master/json_tokener.c:1356-1365 | The next document, in any chunks, is then read as by a new tokener. |
| `NextDocument.CommentNotReady` | json-c-master/json_tokener.c:1356-1365 | After an array with an unclosed comment the call succeeds and the depth stays at 1, so the tokener is not ready. |
| `NextDocument.DocumentsInRow` | json-c-master/json_tokener.c:1356-1365 | Any number of printed values, one call each on one tokener: every call succeeds with its value and leaves the tokener ready. |
| `TokenerReset.ResetIff` | json-c-master/json_tokener.c:207-217 | A tokener that was reset gives the same error and value as a new one on every chunk, if and only if no high surrogate was pending before the reset. |
| `TokenerReset.ResetChunks` | json-c-master/json_tokener.c:207-217 | Without a pending surrogate the same holds over any sequence of chunks. |
| `TokenerReset.TwinChunks` | json-c-master/json_tokener.c:317-1370 | Two tokeners that differ only in scratch fields their states do not read go through any chunks alike. |
| `TokenerReset.LeftOver` | json-c-master/json_tokener.c:747-900 | From the first state the letter A as an escape is read as A; with a surrogate left pending U+FFFD comes before it. |
| `TokenerReset.LeakyReset` | json-c-master/json_tokener.c:207-217 | A run of the class: a chunk that ends in a lone high surrogate, a reset, then the text of the letter A as an escape, gives U+FFFD before the A. |
| `RoundTrip.ReadValue` | json-c-master/json_object.c:603-655 | Feeding the printed text of a value at any indentation takes the tokener from before the value to after it, with the value read and every enclosing level untouched. |
| `RoundTrip.ReadScalar` | json-c-master/json_tokener.c:904-1136 | The same for numbers, booleans, null and strings; all but strings need a character after them. |
| `RoundTrip.ReadArray` | json-c-master/json_object.c:1597-1638 | The same for arrays. |
| `RoundTrip.ReadObject` | json-c-master/json_object.c:603-655 | The same for objects, keys included. |
| `RoundTrip.FeedString` | json-c-master/json_tokener.c:665-708 | A printed string is read back character by character through its escapes. |
| `Json.ReparsedIsEqual` | json-c-master/json_object.c:1796-1849 | A tree whose small unsigned integers came back signed is still equal to the original under json_object_equal. |
| `JsonPrint.EscapeStr` | json-c-master/json_object.c:186-251 | The copying loop of json_escape_str, which flushes unescaped runs at once, writes the escapes of the characters one by one. |
| `JsonPrint.EscapeByte` | json-c-master/json_object.c:194-246 | What one character becomes, and when it is copied as it is. |
| `JsonPrint.Decimal` | json-c-master/json_object.c:844-854 | Decimal digits without leading zeros whose value is the number. |
| `UnicodeEscapes.EscapesAreUtf8` | json-c-master/json_tokener.c:710-900 | For every sequence of \uXXXX escapes the bytes appended are well-formed UTF-8 (section 4 of RFC 3629) and decode to the code points of the UTF-16 units, pairs joined and unpaired surrogates replaced by U+FFFD. |
| `UnicodeEscapes.FeedUnits` | json-c-master/json_tokener.c:747-862 | The same from a state with a surrogate pending, unit after unit. |
| `UnicodeEscapes.FeedHex4` | json-c-master/json_tokener.c:747-765 | Four hexadecimal digits are collected into one unit. |
| `UnicodeEscapes.BytesDecode` | json-c-master/json_tokener.c:799-859 | Decoding the appended bytes gives the code points back, for all scalar values. |
| `UnicodeEscapes.FlushNext` | json-c-master/json_tokener.c:864-881 | A pending surrogate is replaced whatever character follows it. |
| `UnicodeEscapes.FlushEscape` | json-c-master/json_tokener.c:883-900 | A pending surrogate is replaced when another escape than \u follows it. |
| `Tokener.StepKeeps` | json-c-master/json_tokener.c:393-1327 | Every state on every character keeps the stack well formed, and lowers a rank when it looks at the same character again, so the goto loop ends. |
| `Tokener.Char` | json-c-master/json_tokener.c:393-1327 | One character leads to a decided outcome: a valid tokener that wants more, or an end that is not "continue". |
| `Tokener.Run` | json-c-master/json_tokener.c:393-1327 | A call that ends with "continue" leaves a tokener that can go on. |
| `Tokener.ParseEx` | json-c-master/json_tokener.c:317-1370 | The same for a whole call, the tail of json_tokener_parse_ex included. |
| `TokenerClass.JsonTokener.ParseEx` | json-c-master/json_tokener.c:317-1370 | The imperative tokener with its in-place fields, tight inner loops and bulk appends returns the error, value and state of the character-by-character specification. |
| `TokenerClass.JsonTokener.Loop` | json-c-master/json_tokener.c:393-1330 | The main loop reaches the end of the specification run. |
| `TokenerClass.JsonTokener.Pass` | json-c-master/json_tokener.c:393-1327 | One pass of the switch does what the specification does on the characters it took. |
| `TokenerClass.JsonTokener.Reset` | json-c-master/json_tokener.c:207-217 | json_tokener_reset clears every level and the error, and nothing else; the tokener can be called again. |
| `TokenerClass.JsonTokener.ResetAll` | json-c-master/json_tokener.c:1356-1365 | The levels are cleared at the end of a call that is not to be continued. |
| `TokenerClass.JsonTokener.DoEatws` | json-c-master/json_tokener.c:400-418 | A whole run of white space is skipped at once; a slash opens a comment unless strict, anything else goes to the saved state. |
| `TokenerClass.JsonTokener.DoStart` | json-c-master/json_tokener.c:420-493 | The first character of a value decides its kind, or is refused. |
| `TokenerClass.JsonTokener.DoOpen` | json-c-master/json_tokener.c:423-442 | An opening bracket makes an empty container and expects its first element. |
| `TokenerClass.JsonTokener.DoStartWord` | json-c-master/json_tokener.c:443-493 | Words, strings and numbers start with an empty buffer; single quotes are refused when strict. |
| `TokenerClass.JsonTokener.DoFinish` | json-c-master/json_tokener.c:495-501 | A finished value ends the call at depth 0 and is handed to the level above otherwise. |
| `TokenerClass.JsonTokener.DoNull` | json-c-master/json_tokener.c:553-596 | The word null, one character per pass, in any case unless strict. |
| `TokenerClass.JsonTokener.DoCommentStart` | json-c-master/json_tokener.c:598-613 | The second character of a comment decides its kind. |
| `TokenerClass.JsonTokener.DoComment` | json-c-master/json_tokener.c:615-650 | A whole run of comment characters is taken at once, up to the closing character or the end of the chunk. |
| `TokenerClass.JsonTokener.DoCommentEnd` | json-c-master/json_tokener.c:652-663 | A slash closes a block comment. |
| `TokenerClass.JsonTokener.DoText` | json-c-master/json_tokener.c:665-708 | A whole run of plain characters of a string or a key is appended in one piece. |
| `TokenerClass.JsonTokener.DoEscape` | json-c-master/json_tokener.c:710-745 | The short escapes append their character and unknown ones are refused. |
| `TokenerClass.JsonTokener.DoUnicode` | json-c-master/json_tokener.c:747-862 | The four digits of an escape, in one chunk or several, are collected and their bytes appended. |
| `TokenerClass.JsonTokener.DoNeedEscape` | json-c-master/json_tokener.c:864-881 | After a high surrogate: a backslash, or the replacement character. |
| `TokenerClass.JsonTokener.DoNeedU` | json-c-master/json_tokener.c:883-902 | After a high surrogate and a backslash: another unit, or the replacement character and an ordinary escape. |
| `TokenerClass.JsonTokener.DoBoolean` | json-c-master/json_tokener.c:904-951 | The words true and false, one character per pass, in any case unless strict. |
| `TokenerClass.JsonTokener.DoNumber` | json-c-master/json_tokener.c:953-1136 | A run of number characters is appended in one piece, and the number is finished or refused at the character after it. |
| `TokenerClass.JsonTokener.DoArray` | json-c-master/json_tokener.c:1138-1176 | An element one level deeper, or the end of the array; a trailing comma is refused when strict. |
| `TokenerClass.JsonTokener.DoSep` | json-c-master/json_tokener.c:1178-1197 | A comma or the closing bracket after an element or a field. |
| `TokenerClass.JsonTokener.DoFieldStart` | json-c-master/json_tokener.c:1199-1223 | A quoted key or the end of the object; a trailing comma is refused when strict. |
| `TokenerClass.JsonTokener.DoFieldQuote` | json-c-master/json_tokener.c:1199-1223 | A quote of either kind begins a key; anything else is the key error. |
| `TokenerClass.JsonTokener.DoFieldEnd` | json-c-master/json_tokener.c:1269-1280 | The colon after a key. |
| `TokenerClass.JsonTokener.DoObjValue` | json-c-master/json_tokener.c:1282-1303 | A field value one level deeper. |
| `TokenerClass.JsonTokener.RebuildLocals` | json-c-master/json_tokener.c:958-983 | The flags of a number are rebuilt from the characters saved in the buffer. |
| `LinkHashTable.LhTable.constructor` | json-c-master/linkhash.c:499-525 | A new table is empty and consistent. |
| `LinkHashTable.LhTable.LookupEntry` | json-c-master/linkhash.c:628-645 | The probe finds a slot with the key, or the key is in no live slot, despite tombstones and for any hash function. |
| `LinkHashTable.LhTable.ProbeFree` | json-c-master/linkhash.c:592-601 | The uncounted probe ends, even with no empty slot left, because a slot that is not live exists. |
| `LinkHashTable.LhTable.Place` | json-c-master/linkhash.c:592-621 | Insertion appends the pair to the insertion order. |
| `LinkHashTable.LhTable.Insert` | json-c-master/linkhash.c:580-622 | It fails exactly at a full table of INT_MAX slots, changing nothing; otherwise the pair is appended, contents and order survive growth, and growth happens once. |
| `LinkHashTable.LhTable.Resize` | json-c-master/linkhash.c:537-566 | Contents and order survive; the recorded size is the array length if and only if the live entries fit the new size without growing again; it fails exactly when they fit no table. |
| `LinkHashTable.LhTable.ShrinkExample` | json-c-master/linkhash.c:537-566 | A public resize to one slot with two entries leaves the recorded size different from the array length. |
| `LinkHashTable.LhTable.DeleteEntry` | json-c-master/linkhash.c:666-707 | A live slot becomes a tombstone and leaves the order; any other slot is refused. |
| `LinkHashTable.LhTable.DeleteLive` | json-c-master/linkhash.c:677-706 | The invariant and the order of the others survive the deletion. |
| `LinkHashTable.LhTable.Unlink` | json-c-master/linkhash.c:684-705 | The four cases of the relinking give one and the same list without the slot. |
| `LinkHashTable.LhTable.DeleteEntryToTail` | json-c-master/linkhash.c:709-723 | The entries from the given one to the tail go, the ones before it stay. |
| `LinkHashTable.LhTable.Delete` | json-c-master/linkhash.c:725-731 | A pair with that key is removed and the order of the others kept, or -1 and no change when no pair has it. |
| `LinkHashTable.LhTable.ObjectAdd` | json-c-master/json_object.c:699-734 | A new key goes to the end, an old one has its value replaced in place and the old value released; with the "key is new" option it always appends; it fails exactly for the object itself or when a table of INT_MAX slots would have to grow, and then changes and releases nothing. |
| `LinkHashTable.LhTable.ObjectGet` | json-c-master/json_object.c:759-778 | The value of a pair with that key, or nothing when no pair has it. |
| `LinkHashTable.LhTable.Do` | json-c-master/json_object.c:699-734 | One call of the object interface is one step of the map. |
| `LinkHashTable.LhTable.Perform` | json-c-master/linkhash.c:580-731 | Over any run of adds, deletes and lookups the contents, the order and every answer are those of an insertion-ordered map. |
| `LinkHashTable.PlayedLookup` | json-c-master/linkhash.c:580-731 | After any run a lookup gives the value of the last add of that key, or nothing if a delete came later. |
| `LinkHashTable.PlayedDistinct` | json-c-master/json_object.c:699-734 | Keys stay distinct over any run. |
| `LinkHashTable.DeleteKeeps` | json-c-master/linkhash.c:666-707 | Deletion keeps list, links, probe chains and contents. |
| `LinkHashTable.PlaceKeeps` | json-c-master/linkhash.c:592-621 | So does insertion. |
| `LinkHashTable.SetValKeeps` | json-c-master/json_object.c:729-733 | So does overwriting a value. |
| `LinkHash.FreeSlot` | json-c-master/linkhash.c:594-601 | A table with fewer live entries than slots has a slot that is not live. |
| `LinkHash.NotFound` | json-c-master/linkhash.c:634-644 | When the probe stops at an empty slot or has seen every slot, the key is in no slot. |
| `LinkHash.InsertedProbing` | json-c-master/linkhash.c:592-606 | Insertion keeps every key reachable from its home slot. |
| `LinkHash.DeletedProbing` | json-c-master/linkhash.c:682-683 | A tombstone keeps every key reachable. |
| `LinkHash.InsertedThreads` | json-c-master/linkhash.c:608-619 | The links after an insertion are those of the longer list. |
| `LinkHash.DeletedThreads` | json-c-master/linkhash.c:684-705 | The links after a deletion are those of the shorter list. |
| `ObjectPut.ObjectHeap.Put` | json-c-master/json_object.c:331-446 | On every acyclic graph with exact counts the iterative release ends, frees every object at most once, leaves exactly the objects still reachable from an owner that is left, unchanged but for exact counts; the object itself goes exactly at its last reference, and 1 is returned exactly when it had slots then. |
| `ObjectPut.ObjectHeap.MaybeFree` | json-c-master/json_object.c:279-329 | The count is lowered; at zero a leaf, an empty container or a container to be freed goes, a non-empty container is left to the caller. |
| `ObjectPut.ObjectHeap.ReleaseSlots` | json-c-master/json_object.c:353-426 | The slots are released from the last on until one holds a container to go into first; the measure of live objects and slots falls. |
| `ObjectPut.ObjectHeap.Detach` | json-c-master/json_object.c:371-404 | Clearing a slot and giving up its reference keeps all counts exact. |
| `ObjectPut.ObjectHeap.Descend` | json-c-master/json_object.c:405-425 | The child joins the chain of objects under release and the cleared slots go. |
| `ObjectPut.ObjectHeap.Ascend` | json-c-master/json_object.c:432-442 | An object without children is freed and its parent is next. |
| `ObjectPut.ObjectHeap.ReleaseContainer` | json-c-master/json_object.c:351-443 | The loop ends with no object left between zero and freed. |
| `ObjectPut.SurvivorsAreHeld` | json-c-master/json_object.c:331-446 | With exact counts and none at zero, the live objects are exactly those on a path from an owner. |
| `ObjectPut.RestIsSound` | json-c-master/json_object.c:331-446 | What a release leaves can be released again: the graph is at rest. |
| `ObjectPut.StartKeeps` | json-c-master/json_object.c:331-337 | Giving up an outside reference keeps the counts exact. |
| `ObjectPut.FreedLeafReturnsZero` | json-c-master/json_object.c:331-337 | The documented return value is not met: releasing the last reference to a leaf returns 0. |
| `References.DetachKeeps` | json-c-master/json_object.c:371-404 | One detachment keeps counts, zombies and survivors. |
| `References.FreeKeeps` | json-c-master/json_object.c:432-442 | Freeing an object whose slots are clear keeps them and lowers the measure. |
| `References.PushKeeps` | json-c-master/json_object.c:405-407 | Going down keeps the chain through the parent words. |
| `References.PopKeeps` | json-c-master/json_object.c:432-442 | So does going up. |
| `References.TruncateKeeps` | json-c-master/json_object.c:413-420 | Dropping cleared slots keeps all counts and lowers the measure. |
| `RwLock.RunSafe` | 104_slave/src/point_table.c:248-274 | For any number of threads and any schedule: a writer inside is alone, and if some thread is not idle, some thread that is not idle can move. |
| `RwLock.RunInv` | 104_slave/src/point_table.c:248-274 | In every reachable state the mutex is held at most once, the counter is the number of counted readers, and the resource is held by one writer or by the readers as a group. |
| `RwLock.StepKnows` | 104_slave/src/point_table.c:248-274 | Every step of a thread, load and store of the counter apart, keeps that. |
| `RwLock.Exclusion` | 104_slave/src/point_table.c:248-274 | A writer excludes readers and other writers. |
| `RwLock.BlockedReaderAlone` | 104_slave/src/point_table.c:248-255 | A reader that waits for the resource with the mutex in hand implies that no reader is inside, and that a writer holds the resource if it is taken. |
| `RwLock.Progress` | 104_slave/src/point_table.c:248-274 | Which thread can move in every state that is not idle. |
| `RwLock.Drains` | 104_slave/src/point_table.c:248-274 | From every reachable state all requests under way can be finished, and the lock is then as it was created. |
| `RwLock.StepLeft` | 104_slave/src/point_table.c:248-274 | Every step of a thread that is not idle lowers the work left, so every such schedule ends. |
| `WorkQueue.Ring.constructor` | 104_slave/src/client_context.c:81-94 | An empty queue. |
| `WorkQueue.Ring.Push` | 104_slave/src/client_context.c:9-36 | The ring is a bounded deque: high priority in front, low at the back; when full only an upload notification is taken, in place of the first one queued. |
| `WorkQueue.Ring.PushFront` | 104_slave/src/client_context.c:25-28 | A message goes in front. |
| `WorkQueue.Ring.PushBack` | 104_slave/src/client_context.c:29-32 | A message goes to the back. |
| `WorkQueue.Ring.Coalesce` | 104_slave/src/client_context.c:11-22 | The first queued upload notification is replaced. |
| `WorkQueue.Ring.FindUpload` | 104_slave/src/client_context.c:12-19 | The search finds the first upload notification in queue order. |
| `WorkQueue.Ring.Pop` | 104_slave/src/client_context.c:43-53 | The first message is taken. |
| `WorkQueue.Ring.Reset` | 104_slave/src/client_context.c:142-144 | Binding and closing empty the queue. |
| `WorkQueue.Pushed` | 104_slave/src/client_context.c:9-36 | The capacity is kept, and an accepted message is in the queue. |
| `WorkerProtocol.Run` | 104_slave/src/client_context.c:38-185 | Over every run of posts, closes, binds, stops and worker steps: semaphore, posts under way and the token of the worker cover the queue, and every accepted message is delivered, queued, replaced or discarded by a reset, once. |
| `WorkerProtocol.StepInv` | 104_slave/src/client_context.c:137-185 | Every step keeps that. |
| `WorkerProtocol.NoLostWakeup` | 104_slave/src/client_context.c:38-79 | A worker asleep with no post under way has an empty queue. |
| `WorkerProtocol.Drains` | 104_slave/src/client_context.c:56-79 | From every reachable state of a running worker the queue is delivered whole and in order without further posts. |
| `WorkerProtocol.PushedBag` | 104_slave/src/client_context.c:9-36 | A push adds its message and takes at most one upload notification. |
| `ActiveUpload.UploadArea.constructor` | 104_slave/src/active_upload.c:15-33 | Capacities are at least one and nothing is pending. |
| `ActiveUpload.UploadArea.Clear` | 104_slave/src/active_upload.c:60-70 | Nothing is pending afterwards; the version still moves forward. |
| `ActiveUpload.UploadArea.PutYx` | 104_slave/src/active_upload.c:72-99 | One entry per address is updated or made, under a new version; it fails exactly when every entry belongs to another address. |
| `ActiveUpload.UploadArea.PutYc` | 104_slave/src/active_upload.c:101-133 | The same for measured values. |
| `ActiveUpload.UploadArea.PutSoe` | 104_slave/src/active_upload.c:135-149 | The event overwrites the oldest entry of the ring. |
| `ActiveUpload.UploadArea.PutYxEvent` | 104_slave/src/active_upload.c:151-162 | A change and its event take two versions. |
| `ActiveUpload.UploadArea.SnapshotCreate` | 104_slave/src/active_upload.c:308-361 | The version of the area and exactly the entries newer than a version, in slot order. |
| `ActiveUpload.Collect` | 104_slave/src/active_upload.c:342-352 | The copy loops fill exactly the room the count loops found. |
| `ActiveUpload.CountAfter` | 104_slave/src/active_upload.c:275-306 | The count loops. |
| `ActiveUpload.FindTarget` | 104_slave/src/active_upload.c:72-99 | The search loop finds the entry of the address, else the first empty one. |
| `ActiveUpload.UploadArea.Publish` | 104_slave/src/active_upload.c:205-273 | Over any run of publications and clears, no put of a table point fails: there is a slot for every point. |
| `ActiveUpload.PutFits` | 104_slave/src/iec104_server.c:2215-2224 | By counting: distinct pending addresses, all from the table, cannot fill as many slots as the table has points and leave one of them out. |
| `ActiveUpload.AfterIsNewer` | 104_slave/src/active_upload.c:342-352 | A snapshot is the part of the pending map above a version. |
| `ActiveUpload.PutYxKeeps` | 104_slave/src/active_upload.c:72-99 | Addresses and versions stay distinct, also across the three lists. |
| `Replication.Replicated` | 104_slave/src/iec104_server.c:862-956 | Over every run of puts, clears, reconnects and sends that overlap them: ever since a client connected, every pending entry not newer than its version has been what its master received last, if and only if no send of an earlier connection ended on this one with an entry as old as its snapshot still pending. |
| `Replication.UntaintedSeen` | 104_slave/src/iec104_server.c:862-956 | Without such an end the claim holds in the present state. |
| `Replication.TaintStep` | 104_slave/src/iec104_server.c:954-954 | From a connection on which the claim holds, a step breaks it exactly when it is such an end. |
| `UploadReplication.UploadServer.PutYx` | 104_slave/src/active_upload.c:72-99 | A put of the upload area is a put of the protocol on the merged map of pending points, or nothing when it fails. |
| `UploadReplication.UploadServer.PutYc` | 104_slave/src/active_upload.c:101-133 | The same for measured values. |
| `UploadReplication.UploadServer.PutSoe` | 104_slave/src/active_upload.c:135-149 | An event moves the version and no point. |
| `UploadReplication.UploadServer.Clear` | 104_slave/src/active_upload.c:60-70 | A clear of the area is the clear of the protocol. |
| `UploadReplication.UploadServer.Connect` | 104_slave/src/client_context.c:137-170 | Binding and closing a connection set the version of the client back to zero. |
| `UploadReplication.UploadServer.BeginUpload` | 104_slave/src/iec104_server.c:862-876 | The head of a send, with anything that may happen between its reads: it ends without a send, or with a snapshot of what the protocol hands over; undisturbed it starts exactly for an active client with a newer notification. |
| `UploadReplication.UploadServer.SeeActive` | 104_slave/src/iec104_server.c:866-867 | The test of the active flag, after anything that may have happened. |
| `UploadReplication.UploadServer.SeeDue` | 104_slave/src/iec104_server.c:869-870 | The test of the notification, after anything that may have happened. |
| `UploadReplication.UploadServer.TakeSnapshot` | 104_slave/src/iec104_server.c:872-876 | The snapshot carries what the protocol hands over, one entry per address, all pending. |
| `UploadReplication.UploadServer.SendYx` | 104_slave/src/iec104_server.c:878-898 | The loop over the single points: unless the connection was lost, all of them are handed over. |
| `UploadReplication.UploadServer.SendYc` | 104_slave/src/iec104_server.c:924-952 | The loop over the measurands: the same. |
| `UploadReplication.UploadServer.Meanwhile` | 104_slave/src/iec104_server.c:2163-2185 | Whatever other threads do, a send finds itself unchanged or on a connection that is gone. |
| `UploadReplication.UploadServer.SendActiveUpload` | 104_slave/src/iec104_server.c:862-956 | A whole send with anything in between: it ends; if its connection was kept and not tainted, the master has every point not newer than the version the client gets; undisturbed that is the version of the area. |
| `UploadReplication.UploadServer.HandYx` | 104_slave/src/iec104_server.c:892-897 | Handing over a single point is the delivery step of the protocol, with the value of the snapshot. |
| `UploadReplication.UploadServer.HandYc` | 104_slave/src/iec104_server.c:945-951 | The same for a measurand. |
| `UploadReplication.UploadServer.EndUpload` | 104_slave/src/iec104_server.c:954-955 | After the loops the version of the snapshot becomes that of the client: the end of the protocol. |
| `UploadReplication.RestYx` | 104_slave/src/iec104_server.c:878-898 | After each single point the rest to hand over is the snapshot without it. |
| `UploadReplication.UploadServer.MasterHas` | 104_slave/src/iec104_server.c:862-956 | The protocol theorem on the real area: ever since a client connected, its master has had every pending point not newer than the client, if and only if no stale send left one behind. |
| `UploadReplication.SnapshotIsNewer` | 104_slave/src/active_upload.c:342-352 | The entries of a snapshot are the part of the merged map above the version of the client. |
| `UploadReplication.ContentAfter` | 104_slave/src/active_upload.c:342-352 | Copying the slots above a version is cutting the map of pending entries at it. |
| `Replication.VersionsDistinct` | 104_slave/src/active_upload.c:60-149 | Versions are distinct and bounded by the area version in every run. |
| `Replication.RunInv` | 104_slave/src/iec104_server.c:862-956 | The invariant behind both, which also covers sends under way. |
| `Replication.SkipLosesNothing` | 104_slave/src/iec104_server.c:869-870 | A skipped notification announces nothing the master does not have. |
| `Replication.StaleFinish` | 104_slave/src/iec104_server.c:954-954 | When a send outlives its connection and ends on the next one, the claim of the version is true if and only if no entry still pending is as old as the snapshot. |
| `Replication.ReconnectLosesEntry` | 104_slave/src/iec104_server.c:954-954 | A run in which a master that reconnects between the snapshot and the end of a send counts as up to date and has received nothing. |
| `Replication.ReconnectInHead` | 104_slave/src/iec104_server.c:864-873 | The same when it reconnects between the read of the handle and the test of the active flag. |
| `Replication.SendConverges` | 104_slave/src/iec104_server.c:862-956 | A send with nothing in between brings the master to the state of the area. |
| `SoeTransfer.ExactlyOnce` | 104_slave/src/iec104_server.c:1852-1873 | Over every run the events delivered and those waiting in the ring for the next transfer are the events put, as multisets, if and only if no event is put into a ring full of waiting ones and no clear comes after any. |
| `SoeTransfer.RunInv` | 104_slave/src/active_upload.c:135-149 | In every run the ring holds the most recent events since the last transfer or clear, and every event put has been delivered, waits in the ring, or was overwritten or cleared while it waited, exactly once. |
| `SoeTransfer.LostIffCareless` | 104_slave/src/iec104_server.c:1852-1873 | No waiting event has been overwritten or cleared exactly in the careful runs. |
| `SoeTransfer.TransferTakes` | 104_slave/src/active_upload.c:350-352 | A transfer takes the recent events in slot order: as they came, or the part before the write position first when they go round the end of the ring. |
| `SoeTransfer.InOrderIff` | 104_slave/src/active_upload.c:350-352 | Over every run, what a transfer would take is in the order of the puts if and only if the write position, the events since the last clear modulo the capacity, is 0 or at least the number of events since the last transfer. |
| `SoeTransfer.DeliveredInOrderIff` | 104_slave/src/iec104_server.c:1852-1873 | Over every run the whole history is in the order of the puts if and only if this held at every transfer. |
| `SoeTransfer.NewerComesFirst` | 104_slave/src/active_upload.c:350-352 | A ring of two slots, an event, a transfer and two events: the newer one comes first. |
| `SoeScheduler.Recorder.PutYx` | 104_slave/src/active_upload.c:151-162 | A change of the area and its event are steps of the event log. |
| `SoeScheduler.Recorder.PutYc` | 104_slave/src/active_upload.c:101-133 | A change of a measured value moves the version of the log only. |
| `SoeScheduler.Recorder.Clear` | 104_slave/src/active_upload.c:60-70 | A clear of the area is the clear of the log. |
| `SoeScheduler.Recorder.Transfer` | 104_slave/src/iec104_server.c:1852-1873 | The snapshot and the append loop are the transfer of the log. |
| `SoeScheduler.Recorder.Recorded` | 104_slave/src/iec104_server.c:1852-1873 | On the real area: the history and the events still in the ring are the events put, each once, if and only if the run was careful, and the history is in order if and only if every transfer found its events so. |
| `SoeTransfer.EventBag` | 104_slave/src/active_upload.c:135-149 | An event takes the place of the one it overwrites: what waits afterwards and what was lost are what waited and the event. |
| `SoeTransfer.OverwrittenIsLost` | 104_slave/src/active_upload.c:135-149 | In a ring of one slot the second of two events between transfers takes the first with it. |
| `SoeTransfer.EventKeeps` | 104_slave/src/active_upload.c:135-149 | A put keeps the ring and the account of all events. |
| `RemoteControl.YkServer.HandleRemoteControl` | 104_slave/src/iec104_server.c:443-535 | The table moves as specified, the adapter is written exactly when the point fires, with the output of the command value, and only a selection is confirmed. |
| `RemoteControl.YkServer.Output` | 104_slave/src/iec104_server.c:500-522 | An invalid value or a failed write rejects; otherwise state and selection change together. |
| `RemoteControl.YkServer.OutputState` | 104_slave/src/iec104_server.c:348-367 | A double point takes only on and off. |
| `RemoteControl.YkServer.FindYk` | 104_slave/src/point_table.c:398-404 | The first point with the address. |
| `RemoteControl.YkServer.WriteYk` | 104_slave/src/shm_adapter.c:45-55 | A write succeeds exactly while the adapter is connected. |
| `RemoteControl.ExecutesIff` | 104_slave/src/iec104_server.c:443-535 | Over every trace a point executes a message if and only if it is an execute for it, its value can be put out, and the message for it just before was a selection of the same value that has not timed out. |
| `RemoteControl.OneExecutionPerSelect` | 104_slave/src/iec104_server.c:443-535 | A selection authorises at most one execution. |
| `RemoteControl.SelectedIff` | 104_slave/src/iec104_server.c:443-535 | A point is selected exactly when the last message for it was a selection: cancel, mismatch, timeout and failed output consume it. |
| `RemoteControl.StateIsLastExecution` | 104_slave/src/iec104_server.c:443-535 | The state of a point is the value of its last execution. |
| `RemoteAdjust.YtServer.HandleRemoteAdjust` | 104_slave/src/iec104_server.c:537-648 | The frame is taken as specified, the adapter gets all setpoints of an accepted execute frame and else none, and only an accepted selection is confirmed. |
| `RemoteAdjust.YtServer.CheckItem` | 104_slave/src/iec104_server.c:548-597 | What the first loop asks of a setpoint. |
| `RemoteAdjust.YtServer.CheckFrame` | 104_slave/src/iec104_server.c:547-598 | One bad setpoint rejects the frame. |
| `RemoteAdjust.YtServer.ClearFrame` | 104_slave/src/iec104_server.c:601-607 | Rejection clears the listed selections. |
| `RemoteAdjust.YtServer.ApplyFrame` | 104_slave/src/iec104_server.c:608-637 | An accepted frame is applied setpoint by setpoint. |
| `RemoteAdjust.YtServer.Apply` | 104_slave/src/iec104_server.c:610-635 | What one setpoint of an accepted frame does. |
| `RemoteAdjust.YtServer.FindYt` | 104_slave/src/point_table.c:406-412 | The first point with the address. |
| `RemoteAdjust.YtServer.WriteYt` | 104_slave/src/shm_adapter.c:57-67 | A write succeeds exactly while the adapter is connected. |
| `RemoteAdjust.YtServer.SetYt` | 104_slave/src/point_table.c:472-490 | A direct write outside the limits is refused. |
| `RemoteAdjust.FrameAtomic` | 104_slave/src/iec104_server.c:537-648 | All or nothing, repeated addresses included: an accepted execute frame gives every listed point its value, any other frame changes no value, and points not listed stay as they are. |
| `RemoteAdjust.RejectionClears` | 104_slave/src/iec104_server.c:601-637 | After a rejected, cancelled or executed frame no listed point is selected. |
| `RemoteAdjust.AppliedPoint` | 104_slave/src/iec104_server.c:608-637 | For every point the last setpoint of the frame counts. |
| `RemoteAdjust.RunInRange` | 104_slave/src/iec104_server.c:537-648 | Every setpoint stays within its limits over every run of frames and direct writes. |
| `RemoteAdjust.SelectedIff` | 104_slave/src/iec104_server.c:537-648 | A point is selected exactly when the last frame that lists it was an accepted selection. |
| `RemoteAdjust.ExecutesIff` | 104_slave/src/iec104_server.c:537-648 | Over every run an execute frame is carried out if and only if the output adapter is connected and each of its setpoints is known, of the right type, within limits, and was selected with the same value by the frame that listed it just before, in time. |
| `HistoryPaging.SendHistory` | 104_slave/src/iec104_server.c:1104-1241 | The paging loop ends and sends the rows of the range in order: all of them with full pages, the first page with a smaller limit, cut where the client goes down. |
| `HistoryPaging.SendPage` | 104_slave/src/iec104_server.c:1171-1183 | The records of a page go out while the client is active. |
| `HistoryPaging.SentAllIff` | 104_slave/src/history_store.c:517-524 | Every row is sent if and only if the query limit is off, at least a page or at least the number of rows, and the client stays active. |
| `HistoryPaging.SmallLimitStopsEarly` | 104_slave/src/history_store.c:517-524 | With a limit of one row the second of two rows is never sent. |
| `HistoryPaging.WholeIsRange` | 104_slave/src/history_store.c:1051-1060 | The rows are in strict order of time and id, and are exactly the rows of the table in the time range, but for one with time and id both zero. |
| `HistoryPaging.PageAfter` | 104_slave/src/history_store.c:1051-1060 | The query from the last row of a page gives exactly the rows after it. |
| `HistoryPaging.FilterSort` | 104_slave/src/history_store.c:1051-1060 | Filtering and sorting commute. |
| `HistoryPaging.PageSize` | 104_slave/src/history_store.c:517-524 | A page is 256 rows or the smaller configured limit. |
| `Segmentation.Send` | 104_slave/src/iec104_server.c:663-717 | The batch loops, all of one shape: the frames sent are the first ones of the specified cutting. |
| `Segmentation.NextBatch` | 104_slave/src/iec104_server.c:665-668 | The inner loop that grows a frame. |
| `Segmentation.FramesCover` | 104_slave/src/iec104_server.c:1326-1352 | The frames hold exactly the selected points, in order, as long as no range ends at the top of the signed addresses or no selected point lies there. |
| `Segmentation.CoverIff` | 104_slave/src/iec104_server.c:1326-1352 | They do so for every list of points if and only if the range ends below the top of the signed addresses or begins at their bottom. |
| `Segmentation.TopCrossed` | 104_slave/src/iec104_server.c:1341-1345 | Otherwise two points on either side of the top go into one frame, though only the first is in the range. |
| `Segmentation.FramesObey` | 104_slave/src/iec104_server.c:663-717 | Every frame is within the limit of its loop and all its points may stand together. |
| `Segmentation.BatchStops` | 104_slave/src/iec104_server.c:665-668 | No frame is shorter than it could be. |
| `Segmentation.SequenceAddresses` | 104_slave/src/iec104_server.c:663-717 | In every sequence frame a loop sends, element k has the address of the first plus k, in 32 bits. |
| `Segmentation.ReceivedIff` | 104_slave/src/iec104_server.c:663-717 | The round trip: a master that decodes the frames of a loop, counting the addresses of a sequence up from the only one sent, gets all selected points in order with their own addresses, values, types and causes, if and only if every selected address fits three octets. |
| `Segmentation.FrameReceived` | 104_slave/src/iec104_server.c:663-717 | The same for one frame, with addresses cut to three octets. |
| `Segmentation.FrameFits` | 104_slave/src/iec104_server.c:29-37 | Every frame fits the 243 octets of an ASDU, with the one exception of a measured-value type outside the three known ones in an active upload of more than 16 values. |
| `Segmentation.LimitsTight` | 104_slave/src/iec104_server.c:29-37 | The limits for scaled and short values and for counters leave no room for one more. |
| `Segmentation.BuildPayload` | 104_slave/src/iec104_server.c:1289-1309 | The payload of a word frame: address, words and time, within its buffer and the ASDU. |
| `Segmentation.AppendIoa` | 104_slave/src/iec104_server.c:1264-1269 | Three octets, low octet first. |
| `Segmentation.AppendWord` | 104_slave/src/iec104_server.c:1271-1275 | The low 16 bits, low octet first. |
| `Segmentation.PayloadRoundTrip` | 104_slave/src/iec104_server.c:1525-1556 | Reading a payload back gives every address and the low 16 bits of every value. |
| `Json5Comments.StripComments` | 104_slave/src/config.c:57-114 | The stripping loop, inside a buffer of the length of the input. |
| `Json5Comments.SkipLine` | 104_slave/src/config.c:88-95 | A line comment goes, its line break stays. |
| `Json5Comments.SkipBlock` | 104_slave/src/config.c:97-107 | A block comment goes, its line breaks stay. |
| `Json5Comments.StringChar` | 104_slave/src/config.c:71-79 | The end of a string is found past escaped quotes. |
| `Json5Comments.StripIdempotent` | 104_slave/src/config.c:57-114 | No comment opens outside a string in the result, and stripping twice is stripping once. |
| `Json5Comments.LiteralsKept` | 104_slave/src/config.c:57-114 | String literals stay as they are. |
| `Json5Comments.BreaksKept` | 104_slave/src/config.c:57-114 | All line breaks stay: positions keep their line. |
| `Json5Keys.QuoteKeys` | 104_slave/src/config.c:126-227 | The quoting loop, inside a buffer of three times the input. |
| `Json5Keys.ScanKey` | 104_slave/src/config.c:200-211 | The look-ahead: how long the key is, and whether a colon follows it. |
| `Json5Keys.ErasedIsInput` | 104_slave/src/config.c:126-227 | Taking the added quotes away gives the input back. |
| `Json5Keys.QuotedSize` | 104_slave/src/config.c:126-227 | The output is at least as long as the input and at most three times as long. |
| `Json5Keys.QuoteIdempotent` | 104_slave/src/config.c:126-227 | Quoting twice is quoting once: quoting a key makes no key of anything else. |

## Left out

- Doubles, NaN and Infinity, `strtod`, locales and the double printers; a text with a double ends the model's parse with an error of its own.
- The UTF-8 validation flag of the tokener, the coloured print flag, custom serializers and user delete callbacks.
- Allocation failures everywhere.
- printbuf and arraylist internals, entry free functions and constant keys of the hash table; array slots and object entries are both a list of slots in the release.
- ObjectPut.ObjectHeap.Put: requires the user data word to be null in a container that has slots and gives up its last reference, because the code shares that word with the parent link and would follow it.
- CallBoundaries.LetterAfterCut: ends with the model's own error for doubles where the code waits for the rest of -Infinity, because doubles are left out.
- CallBoundaries.PlusAfterCut: ends with the model's own error for doubles where the code returns the double read so far, because doubles are left out.
- json_pointer, json_patch, json_visit, the iterators, deep copy.
- Hash functions and seeds: the hash is any function of the key.
- SQL back ends, schemas and trimming; a page query is a filter, a sort and a limit on a table that does not change during the transfer.
- The encoding of the single values inside an information object, and a send that fails: a send hands its entries over.
- lib60870, sockets, sleeping, time setting, logging, the diagnostic server and `command_handler.c`.
- `point_table_set_yk`, which writes a command state directly and has no caller, and the demo scan; change detection through the last reported value.
- Setpoints that are not a number; an adapter that disconnects within a frame.
- Commands of a select timeout below zero.
- `remove_trailing_commas` and the legacy key scanner of the configuration; single-quoted strings, which the preprocessor does not know either.
- The partition table of addresses and the remaining find functions: easy members.
- History frames of events, measured totals and the single-object senders: the same cutting with other limits.
- Segmentation.Send: the number of points a frame function itself would clamp is not modelled, since no loop gives it more than its limit.
- Fairness of the lock and of the semaphores: a thread that can move need not be scheduled.
