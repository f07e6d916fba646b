# A model of iperf 3.1.3

iperf measures the bandwidth between two hosts.  This project models the C library in
`app/src/main/jni/iperf-3.1.3/src` in Dafny and proves what its parts are for:

- **cJSON** (`CText`, `Numerals`, `Json*`, `NumberScan`, `CBuffer`, `PowerOfTwo`, `Unicode`, `ObjectItems`, `ChildList`,
  `Duplicate`): the parser as it scans, the printer with and without a growing buffer, the minifier that works in place,
  and the chains of children, against the grammar of RFC 8259 (`JsonGrammar`).  Every text of the grammar is read as the
  tree it means; what is printed is in the grammar, so parsing undoes printing, up to the digits that are shown of a
  number; the two printers write the same text in the space they computed; and the minifier keeps the meaning of exactly
  the texts that are named.
- **The control protocol** (`ProtocolSpec`, `Protocol`, `ServerLoop`, `ClientLoop`, `Turns`, `Sessions`, `Wire`): a
  client, a server, two queues, the data connections, lost datagrams and strangers as a state machine.  One invariant
  gives synchronisation, freedom from deadlock, bounded runs and agreement at the end, down to the bytes on the
  connection and up to whole sessions of the two loops.  The server is also proved safe against any sequence of events
  from any number of connections.
- **The exchanges** (`CInt`, `ControlFrame`, `Parameters`, `ParameterExchange`, `ParameterMethods`, `Results`,
  `ResultMethods`): framing, transfers that the system may cut anywhere, and exactly when the two sides agree.
- **Timers** (`TimeVal`, `TimerSpec`, `LateTimers`, `ResettingTimers`, `Timers`): the sorted doubly linked list and the
  run loop that changes it while it walks.
- **Accounting** (`UdpLoss`, `Tally`, `TallyHistory`, `TallyMethods`, `FinalReport`, `Sending`): lost datagrams,
  intervals, the omitted period, the final report, limits and pacing.

`Wrappers` and `Sequences` hold what several of them share.

`dafny verify dfyconfig.toml` checks everything.

How the model stands for the code: a C string is a sequence of characters from 1 to 255, and reading at or past its end
gives NUL.  Sizes and counts do not wrap, except where a lemma says how they are cut (a frame's length, the results of the
transfer loops, the C types that received parameters are assigned to).  Numbers are exact reals: the parser's is the one
that its arithmetic approximates, and the printer's text is what the formats of `sprintf` make of the exact number, rounded
to the nearest, halves to even.  Bit operations are written as arithmetic, with a lemma on machine words where they are
less than obvious.  Allocation succeeds.  How much a read or write transfers, which sockets are ready, what the clock says
and what a write to a data socket takes are left open, and every theorem holds for all of it.

Some results are about where the code does not do what it might seem to, each with an input or the exact condition:

- A late periodic timer may still be due when `tmr_run` returns; `LateTimers` says for which lists.  A timer that is due
  is missed when a procedure called before it resets the next one, and only then.
- A negative number of streams is accepted and never finishes.  A stranger who connects before the client takes the
  server away, and so does one whose connection fails before the denial is written, in any state, and one who sends
  nothing while the server waits for TCP streams.  A UDP test is lost with the datagram that announces a stream, or with
  the answer to it.  Otherwise a test that stops has finished.
- A reset server keeps the limits, the title and other settings of its last client.  A second `-R` makes both sides
  send.
- The pointer that the buffered printer returns for an object is that of its text only if the object is empty, the mode
  compact, or the depth equal to the offset.
- A frame whose text has 2^31 characters or more is written and then refused by either end.
- Minifying continues a number when only blanks or a comment kept it apart from what can follow in it, and runs past a
  document that is an open string.
- A block comment that begins with a slash is taken to end there.  The intervals that count may last longer than the
  time that the report divides by; `TallyHistory` says when.
- The client of a reverse test reports besides its intervals what it drained after the last of them.
- The datagrams of the counted intervals differ from those that a receiving server reports by what came between the last
  omitted interval and the end of the omitted period.  A server prints its report before the exchange
  (iperf_server_api.c:209-212), a client after it: one that sends prints the receiver's losses less its own omitted
  ones, so the losses of the omitted period are in its report, and not in the server's.

## Model

| member | source | states |
|---|---|---|
| JsonParser.ParseNumber | app/src/main/jni/iperf-3.1.3/src/cjson.c:106-125 | the digit, fraction and exponent loops return, for every text and offset, the number and end that JsonNumber and JsonRoundTrip reason about |
| JsonNumber.NumeralParsed | app/src/main/jni/iperf-3.1.3/src/cjson.c:106-125 | every number of the JSON grammar (section 6 of RFC 8259), with or without sign, fraction and exponent, is read as its exact value and to its end, if nothing follows that could belong to it |
| JsonNumber.ScanMore | app/src/main/jni/iperf-3.1.3/src/cjson.c:112-113 | the digit loop continues a number: digits read before and after it make one number |
| JsonParser.ScanString | app/src/main/jni/iperf-3.1.3/src/cjson.c:208-210 | the first scan finds the end of the literal and counts one character of room for every character or escape head |
| JsonParser.DecodedFits | app/src/main/jni/iperf-3.1.3/src/cjson.c:208-260 | for every text, escapes or not, the decoded body ends at the closing quote and never exceeds the room counted by the first scan |
| JsonParser.EmitUtf8 | app/src/main/jni/iperf-3.1.3/src/cjson.c:244-252 | the fall-through switch that writes backwards leaves the bytes of the code point in order and touches nothing else |
| JsonParser.ParseString | app/src/main/jni/iperf-3.1.3/src/cjson.c:203-262 | for every text: the decoded string and the offset behind the literal, or failure; all writes stay inside the buffer that the first scan sized |
| JsonParser.ParseValue | app/src/main/jni/iperf-3.1.3/src/cjson.c:370-382 | for every text and offset: the tree and the offset behind it, or the offset of the error |
| JsonParser.ParseArray | app/src/main/jni/iperf-3.1.3/src/cjson.c:419-444 | the loop over a comma-separated list, proved equal to the recursive reading of the same text |
| JsonParser.ParseObject | app/src/main/jni/iperf-3.1.3/src/cjson.c:527-560 | the loop over the members, proved equal to the recursive reading of the same text |
| JsonParser.ParseWithOpts | app/src/main/jni/iperf-3.1.3/src/cjson.c:337-353 | white space before the document, and the optional demand that nothing follows it |
| JsonNames.ParsedValueNamed | app/src/main/jni/iperf-3.1.3/src/cjson.c:203-262 | in every tree that any text parses to, at any depth, member names are C strings without NUL, although string values that run into the terminator need not be |
| JsonParse.SkipIs | app/src/main/jni/iperf-3.1.3/src/cjson.c:334 | every character from 1 to 32 is passed over, and no other |
| JsonReading.StringRead | app/src/main/jni/iperf-3.1.3/src/cjson.c:203-262 | every string of the JSON grammar (section 7 of RFC 8259), each character as it is or in any form of escape, the eight letters, hexadecimal digits in either case and surrogate pairs, is read as what it denotes, to its closing quote; it is refused if and only if it has a surrogate without its other half, or U+0000 |
| JsonReading.DocRead | app/src/main/jni/iperf-3.1.3/src/cjson.c:370-560 | every value of the JSON grammar (sections 2 to 7 of RFC 8259), with white space wherever it is allowed, standing anywhere in a text, is read as the tree it means, to its end, and refused if and only if one of its strings is |
| JsonReading.TextRead | app/src/main/jni/iperf-3.1.3/src/cjson.c:337-353 | the same for whole documents, with white space around them, with and without the check for the end |
| Unicode.EscapeIsUtf16 | app/src/main/jni/iperf-3.1.3/src/cjson.c:229-242 | an escape is accepted if and only if its one or two units are the UTF-16 form (section 2 of RFC 2781) of a code point other than 0 and stand inside the literal, and then it denotes that code point; bad hex, unpaired surrogates and \u0000 are rejected |
| Unicode.Utf8RoundTrip | app/src/main/jni/iperf-3.1.3/src/cjson.c:244-252 | the bytes written for a code point decode, by section 3 of RFC 3629, to that code point in shortest form, whatever follows |
| Unicode.ContinuationBits | app/src/main/jni/iperf-3.1.3/src/cjson.c:247-250 | the bit operations of the switch compute these bytes |
| Unicode.DecodingKeepsUtf8 | app/src/main/jni/iperf-3.1.3/src/cjson.c:203-262 | a literal in UTF-8 decodes to a string in UTF-8, whatever escapes it mixes in |
| JsonRoundTrip.StringRoundTrip | app/src/main/jni/iperf-3.1.3/src/cjson.c:203-321 | every C string is read back from its quoted, escaped form |
| JsonRoundTrip.PrintedIsDoc | app/src/main/jni/iperf-3.1.3/src/cjson.c:388-671 | what is printed of every tree of finite numbers and C strings, at any depth and in either mode, is a text of the JSON grammar, and means the tree with its numbers as they are shown |
| JsonRoundTrip.RoundTrip | app/src/main/jni/iperf-3.1.3/src/cjson.c:370-671 | every tree of finite numbers and C strings, printed at any depth and in either mode anywhere inside a text, parses back to what its text conveys, the same tree with its numbers as they are shown, and to exactly the end of its text, if a number is not followed by more of a number |
| JsonRoundTrip.ParseOfPrint | app/src/main/jni/iperf-3.1.3/src/cjson.c:337-357 | a whole printed document parses to what it conveys, with and without the check for the end |
| JsonRoundTrip.TextInjective | app/src/main/jni/iperf-3.1.3/src/cjson.c:356-357 | trees with the same text convey the same, and are the same if their numbers are integers up to 2^53 |
| Json.ConveyedExact | app/src/main/jni/iperf-3.1.3/src/cjson.c:157-186 | a tree whose numbers are integers up to 2^53 is conveyed as it is |
| Numerals.ShownExact | app/src/main/jni/iperf-3.1.3/src/cjson.c:166-171 | an integer up to 2^53 is printed with its digits and denotes itself |
| Numerals.ShownNear | app/src/main/jni/iperf-3.1.3/src/cjson.c:172-184 | whichever of the four formats is chosen, the number shown for one up to 10^9 is off by half of a millionth at most, whatever its sign and however small it is |
| Numerals.ShownRelative | app/src/main/jni/iperf-3.1.3/src/cjson.c:172-184 | the number shown for one above 10^9, or below a millionth but above the rounding unit of doubles, is off by half of a millionth of it at most |
| Numerals.ShownWithin | app/src/main/jni/iperf-3.1.3/src/cjson.c:166-184 | any number shown is off by half of a millionth at most, of 1 or of the number, whichever is larger |
| Numerals.ShownFinite | app/src/main/jni/iperf-3.1.3/src/cjson.c:157-186 | what is shown of a number in the range of doubles is in that range |
| Numerals.TextLength | app/src/main/jni/iperf-3.1.3/src/cjson.c:168-184 | the text of every number in the range of doubles, with its terminator, fits the 64 characters set aside for it |
| JsonStringPrinter.StringRoom | app/src/main/jni/iperf-3.1.3/src/cjson.c:265-299 | the two scans compute the exact length of the escaped string |
| JsonStringPrinter.WriteString | app/src/main/jni/iperf-3.1.3/src/cjson.c:282-320 | both writing paths put the quoted string and its terminator in the room asked for, and leave what stands before |
| JsonPrinter.TextFits | app/src/main/jni/iperf-3.1.3/src/cjson.c:265-671 | for every tree, depth and mode, the text of numbers, strings, arrays and objects fits, with its terminator, the space computed beforehand; strings fill it exactly |
| JsonPrinter.PrintStringPtr | app/src/main/jni/iperf-3.1.3/src/cjson.c:265-321 | the buffer of length + 3 is filled to its last byte |
| JsonPrinter.PrintArray | app/src/main/jni/iperf-3.1.3/src/cjson.c:485-523 | the entries are printed first, the size is computed from them, and the composed text stays within it |
| JsonPrinter.PrintObject | app/src/main/jni/iperf-3.1.3/src/cjson.c:623-669 | names and entries are printed first, the size is computed from them, and the composed text, with its tabs, stays within it |
| JsonPrinter.PrintValue | app/src/main/jni/iperf-3.1.3/src/cjson.c:402-414 | the text of the tree, in a buffer of exactly the computed size |
| JsonPrinter.Print | app/src/main/jni/iperf-3.1.3/src/cjson.c:356-357 | cJSON_Print and cJSON_PrintUnformatted return the text of the tree |
| PowerOfTwo.LeastPower | app/src/main/jni/iperf-3.1.3/src/cjson.c:127 | for every x from 1 to 2^30 the shifts compute the least power of two that is not below x |
| JsonBuffer.PrintBuffer.Ensure | app/src/main/jni/iperf-3.1.3/src/cjson.c:131-146 | room for what is needed: growth keeps everything already in the buffer, and the new length is the least power of two that suffices |
| JsonBuffer.PrintBuffer.Update | app/src/main/jni/iperf-3.1.3/src/cjson.c:148-154 | finds the end of the text again, wherever inside it the offset stopped |
| JsonBuffer.PrintBuffer.PrintValue | app/src/main/jni/iperf-3.1.3/src/cjson.c:388-401 | the text of the tree is in the buffer behind what was there, for every initial size, and every write lies below length |
| JsonBuffer.PrintBuffer.PrintArray | app/src/main/jni/iperf-3.1.3/src/cjson.c:464-482 | the same for arrays, item by item |
| JsonBuffer.PrintBuffer.PrintObject | app/src/main/jni/iperf-3.1.3/src/cjson.c:583-620 | the same for objects, and the offset of the returned pointer, which the loop over the indentation may have overwritten |
| JsonBuffer.ReturnedOffset | app/src/main/jni/iperf-3.1.3/src/cjson.c:583-620 | the pointer returned points to the text if and only if the value is no object, the object is empty, the mode is compact, or the depth happens to be the offset |
| JsonBuffer.PrintBuffered | app/src/main/jni/iperf-3.1.3/src/cjson.c:359-366 | whatever the initial size, the buffer ends up with the very text that printing without a buffer gives |
| JsonMinify.MinifyInPlace | app/src/main/jni/iperf-3.1.3/src/cjson.c:749-764 | in place, with the write index never ahead of the read index, the buffer ends up with the squeezed text and its terminator, for every text on which the routine does not read on behind the terminator; it does so exactly when a string or a block comment stays open |
| JsonMinifyText.MinifyDoc | app/src/main/jni/iperf-3.1.3/src/cjson.c:749-764 | a value of the JSON grammar standing anywhere, with comments anywhere in its white space, becomes the same value without white space and comments, and what is behind it is minified; strings with blanks, slashes and escapes are untouched |
| JsonMinifyText.MinifyText | app/src/main/jni/iperf-3.1.3/src/cjson.c:749-764 | a whole document with comments becomes the compact document, which is read as the tree it means |
| JsonMinifyText.CompactMeansSame | app/src/main/jni/iperf-3.1.3/src/cjson.c:749-764 | the compact document means what the document with white space means |
| JsonMinifyText.BlockCommentGone | app/src/main/jni/iperf-3.1.3/src/cjson.c:758 | a block comment is removed to its end if and only if its first character is not a slash; otherwise only its first three characters are |
| JsonMinifyText.CommentLeft | app/src/main/jni/iperf-3.1.3/src/cjson.c:758 | an input of that kind, of which the rest is left |
| JsonMinifyText.MinifyFormatted | app/src/main/jni/iperf-3.1.3/src/cjson.c:749-764 | so minifying a formatted text standing anywhere gives the compact text, and continues behind it |
| JsonMinifyText.MinifyOfPrint | app/src/main/jni/iperf-3.1.3/src/cjson.c:356-357 | minifying what cJSON_Print returns gives what cJSON_PrintUnformatted returns |
| JsonMinifyMeaning.MinifyPreservesMeaning | app/src/main/jni/iperf-3.1.3/src/cjson.c:749-764 | a document, whoever wrote it, that is accepted as a whole and leaves nothing open parses to the same tree after minifying |
| JsonMinifyClosed.AcceptedOpen | app/src/main/jni/iperf-3.1.3/src/cjson.c:749-764 | of the documents accepted as a whole the routine runs out of exactly those that are one string without a closing quote |
| JsonMinifyClosed.AcceptedKeepsMeaning | app/src/main/jni/iperf-3.1.3/src/cjson.c:749-764 | every other document accepted as a whole keeps its tree |
| JsonMinifyMeaning.MinifyKeepsReading | app/src/main/jni/iperf-3.1.3/src/cjson.c:749-764 | for every text that starts with a value, whatever follows: minified it starts with the same value, with the rest minified behind it, if and only if the value is not a number that is continued by the first two characters left behind it |
| JsonMinifyMeaning.NumberMoved | app/src/main/jni/iperf-3.1.3/src/cjson.c:106-125 | a number whose characters have moved is read as the same number to the same place, unless it is continued, and then it is read further |
| NumberScan.NumberEnd | app/src/main/jni/iperf-3.1.3/src/cjson.c:106-125 | the loops of the number stop where an automaton over the last kind of character taken stops |
| NumberScan.NumberCut | app/src/main/jni/iperf-3.1.3/src/cjson.c:106-125 | what is read depends on the characters of the number alone |
| JsonMinifyMeaning.MinifyJoinsTokens | app/src/main/jni/iperf-3.1.3/src/cjson.c:755-758 | an input of the failing kind: a blank that kept two numbers apart disappears |
| ObjectItems.StrCaseCmp | app/src/main/jni/iperf-3.1.3/src/cjson.c:49-54 | zero if and only if the strings agree but for the case of letters |
| ObjectItems.SameLetter | app/src/main/jni/iperf-3.1.3/src/cjson.c:49-54 | characters agree but for case if and only if they are the same, or one letter in its two cases |
| ObjectItems.GetObjectItem | app/src/main/jni/iperf-3.1.3/src/cjson.c:676 | the first member of the name, and none for values that are no objects |
| ObjectItems.FindAppended | app/src/main/jni/iperf-3.1.3/src/cjson.c:676-686 | a member added at the end is found unless an earlier one has its name |
| ChildList.GetArraySize | app/src/main/jni/iperf-3.1.3/src/cjson.c:674 | the walk counts the items |
| ChildList.AddItemToArray | app/src/main/jni/iperf-3.1.3/src/cjson.c:685 | append on the chain of prev and next links; nothing for a null item |
| ChildList.InsertItemInArray | app/src/main/jni/iperf-3.1.3/src/cjson.c:698-699 | insert before the item at the place, or append if there is none; the links stay each other's inverses and null-ended |
| ChildList.DetachItemFromArray | app/src/main/jni/iperf-3.1.3/src/cjson.c:691-692 | remove: the item is returned without links, and the rest is linked in its order; null and no change past the end |
| ChildList.ReplaceItemInArray | app/src/main/jni/iperf-3.1.3/src/cjson.c:700-702 | update: the new node takes the links of the old one, which loses its own and is the one that is deleted; no change past the end |
| ChildList.LinkedInserted | app/src/main/jni/iperf-3.1.3/src/cjson.c:699 | links set as the insertion sets them form the chain of the longer sequence |
| ChildList.LinkedRemoved | app/src/main/jni/iperf-3.1.3/src/cjson.c:692 | links set as the removal sets them form the chain of the shorter sequence |
| Duplicate.DuplicateItem | app/src/main/jni/iperf-3.1.3/src/cjson.c:722-747 | a tree of new nodes, none of them twice, properly linked, with the same contents at every node, the flag for a constant name included, none of them a reference, and without children if it is not recursive; the original is not touched |
| TimeVal.AddUsecsExact | app/src/main/jni/iperf-3.1.3/src/timer.c:125-134 | the sum is exact for every number of microseconds; it is normal if and only if a negative remainder does not outweigh the microseconds |
| TimeVal.EarlierIsLess | app/src/main/jni/iperf-3.1.3/src/timer.c:60-100 | the comparison used in the list is the order of the totals |
| Timers.TimerLists.ListAdd | app/src/main/jni/iperf-3.1.3/src/timer.c:60-100 | the timer goes behind those due at the same time or earlier; the list stays sorted, well linked and disjoint from the free list |
| Timers.TimerLists.ListRemove | app/src/main/jni/iperf-3.1.3/src/timer.c:103-112 | the neighbours are linked past the timer, and nothing else changes |
| Timers.TimerLists.ListResort | app/src/main/jni/iperf-3.1.3/src/timer.c:115-122 | a timer whose time has changed moves to its place, and the others keep theirs |
| Timers.TimerLists.TmrCreate | app/src/main/jni/iperf-3.1.3/src/timer.c:137-166 | a free timer is used again, or a new one made, and inserted at now plus its period |
| Timers.TimerLists.TmrTimeout | app/src/main/jni/iperf-3.1.3/src/timer.c:169-187 | none if there is no timer, else the time until the earliest of all active timers is due, or 0 if it is overdue |
| Timers.TimerLists.TmrRun | app/src/main/jni/iperf-3.1.3/src/timer.c:190-215 | the loop over the list it changes, with the saved next node, makes the run that TimerSpec defines: which timers fire, in which order, where they end up, and which are freed, for procedures that leave the lists alone |
| Timers.TimerLists.TmrRunResetting | app/src/main/jni/iperf-3.1.3/src/timer.c:190-227 | the same loop when procedures reset other timers of the list it walks: it goes on from the saved node, wherever that was moved to, and makes the run that ResettingTimers defines |
| Timers.TimerLists.RunOfListIsFair | app/src/main/jni/iperf-3.1.3/src/timer.c:190-215 | on every valid list each timer due on entry fires, and each active timer ends up as its kind requires |
| Timers.TimerLists.TmrReset | app/src/main/jni/iperf-3.1.3/src/timer.c:218-227 | due again a period from now, at its place in the order |
| Timers.TimerLists.TmrCancel | app/src/main/jni/iperf-3.1.3/src/timer.c:230-239 | out of the active list and to the head of the free list |
| Timers.TimerLists.TmrCleanup | app/src/main/jni/iperf-3.1.3/src/timer.c:242-252 | the free list is emptied |
| Timers.TimerLists.TmrDestroy | app/src/main/jni/iperf-3.1.3/src/timer.c:255-261 | both lists are emptied |
| TimerSpec.TurnRunnable | app/src/main/jni/iperf-3.1.3/src/timer.c:190-215 | the measure of the run loop: the sum of max(0, now + 1 - due) falls on every turn, for periods of at least one microsecond |
| TimerSpec.RunTreats | app/src/main/jni/iperf-3.1.3/src/timer.c:190-215 | a periodic timer that fired c times is due c periods later and was due each time; a one-shot fires at most once, only if due, and is then freed; a due timer fires |
| TimerSpec.FiringBound | app/src/main/jni/iperf-3.1.3/src/timer.c:190-215 | at most floor((now - due) / period) + 1 firings, and none if not due |
| TimerSpec.FiredInOrder | app/src/main/jni/iperf-3.1.3/src/timer.c:190-215 | timers fire in the order of their due times, none early |
| TimerSpec.RunKeeps | app/src/main/jni/iperf-3.1.3/src/timer.c:190-215 | no timer is lost: each stays in the list, which stays sorted and distinct, or is freed |
| LateTimers.NothingDueIffFollowed | app/src/main/jni/iperf-3.1.3/src/timer.c:190-215 | for every list: no timer is due when the run returns if and only if, whenever a periodic timer is due twice, another timer was scheduled between the two times, ties included by the order in the list and of going back into it |
| LateTimers.InTime | app/src/main/jni/iperf-3.1.3/src/timer.c:190-215 | so nothing is due on return if no periodic timer was late by its period |
| LateTimers.LoneTimer | app/src/main/jni/iperf-3.1.3/src/timer.c:190-215 | a lone periodic timer is due on return if and only if it was late by its period |
| LateTimers.LatePeriodicStaysDue | app/src/main/jni/iperf-3.1.3/src/timer.c:190-215 | an input of that kind: one firing, and the timer is due again |
| ResettingTimers.ResettingRunKeeps | app/src/main/jni/iperf-3.1.3/src/timer.c:190-227 | with procedures that reset other periodic timers: the list stays sorted, no timer is lost, none fires early, and the run ends |
| ResettingTimers.DueFiresUnlessCut | app/src/main/jni/iperf-3.1.3/src/timer.c:190-227 | for whole runs: a timer that is due on entry, and that no procedure resets, fires if and only if no procedure called before it resets the timer that was saved as the next |
| ResettingTimers.DueStaysAhead | app/src/main/jni/iperf-3.1.3/src/timer.c:197-214 | a due timer that such a procedure does not reset is still reached by the loop if and only if the saved next timer was not reset either |
| ResettingTimers.ResetMakesMiss | app/src/main/jni/iperf-3.1.3/src/iperf_client_api.c:148-167 | an input of the failing kind: the end of the omitted period resets the next timer, and a due one behind it is missed |
| Protocol.StepInv | app/src/main/jni/iperf-3.1.3/src/iperf_api.c:1222-1287 | every step of client, server, stream or stranger, and the loss of a datagram, keeps the invariant: both queues are slices of fixed scripts, and each side's state is a function of what it has sent and read; or a stranger came first, and the client is at most denied; or the client has given up over a lost datagram, or its server has ended, and the scripts are cut short |
| Protocol.Synchronised | app/src/main/jni/iperf-3.1.3/src/iperf_api.c:1222-1287 | in every reachable state a side that reads a state finds a state, and a side that reads a frame finds that frame; no message breaks the server, and none the client but the denial, which comes when a stranger was first |
| Protocol.RunningTogether | app/src/main/jni/iperf-3.1.3/src/iperf_client_api.c:391-444 | the client is in TEST_RUNNING only while the server is, with all streams accepted |
| Protocol.StartsOnceComplete | app/src/main/jni/iperf-3.1.3/src/iperf_server_api.c:538-585 | TEST_START and TEST_RUNNING are sent at most once, both or neither, and only when exactly the streams of the client were accepted |
| Protocol.FinalAgreement | app/src/main/jni/iperf-3.1.3/src/iperf_client_api.c:311-328 | when both are finished, nothing is left unread and each has the other's parameters and results |
| Protocol.NoDeadlock | app/src/main/jni/iperf-3.1.3/src/iperf_client_api.c:331-457 | in every reachable state in which no stranger has taken the server away and no datagram for a stream was lost, for every number of streams that is not negative, some step that waits for nobody is enabled until both sides are done |
| Protocol.LostForever | app/src/main/jni/iperf-3.1.3/src/iperf_server_api.c:128-174 | a test is lost exactly by these steps: the server meets a stranger before its client, or one whose connection fails so that no denial can be written, or one that sends no cookie while it waits for TCP streams; or the datagram that announces a UDP stream, or its answer, is lost. It is then lost for good, and never finishes |
| Protocol.PreemptedClient | app/src/main/jni/iperf-3.1.3/src/iperf_server_api.c:161-171 | a client whose server was taken first has sent its cookie at most, and reads nothing but ACCESS_DENIED |
| Protocol.NegativeNeverFinishes | app/src/main/jni/iperf-3.1.3/src/iperf_server_api.c:540 | a negative number of streams, which nothing refuses, is never reached by the count: no reachable state has a finished side |
| Protocol.MeasureFalls | app/src/main/jni/iperf-3.1.3/src/iperf_client_api.c:331-457 | every step but a stranger's arrival lowers a measure that is never negative |
| Protocol.RunLength | app/src/main/jni/iperf-3.1.3/src/iperf_client_api.c:331-457 | no run is longer than the measure of its first state and two steps for every stranger |
| Protocol.StoppedRunIsFinished | app/src/main/jni/iperf-3.1.3/src/iperf_client_api.c:331-457 | a run from the start that only a stranger could continue has finished on both sides if and only if none of its steps was one of these, and then parameters and results are exchanged |
| ServerLoop.ReactSafe | app/src/main/jni/iperf-3.1.3/src/iperf_server_api.c:484-585 | whatever wakes the loop, safety is kept: over TCP only streams that presented the owner's cookie are counted, and the test starts at most once, with exactly that many |
| ServerLoop.AlwaysSafe | app/src/main/jni/iperf-3.1.3/src/iperf_server_api.c:484-585 | so it is, from the start of a server, after any events in any order from any number of connections, silent and failing ones among them |
| ServerLoop.StrangerChangesNothing | app/src/main/jni/iperf-3.1.3/src/iperf_server_api.c:128-174 | a foreign connection that can be answered, outside CREATE_STREAMS or with another cookie inside it, leaves the test's state as it was, and gets ACCESS_DENIED whenever the listener is served |
| ServerLoop.AnswersTo | app/src/main/jni/iperf-3.1.3/src/iperf_server_api.c:178-247 | what is answered to each state byte, what is taken from it, and which ones end the loop, CLIENT_TERMINATE among them |
| ServerLoop.UnchangedIffDenied | app/src/main/jni/iperf-3.1.3/src/iperf_server_api.c:484-507 | whatever a foreign connection does, the state stays as it was if and only if the denial could be written or, over UDP in CREATE_STREAMS, the listener is not served; otherwise the server ends, on a connection that fails, or hangs, on a silent one |
| ServerLoop.IperfServer.Accept | app/src/main/jni/iperf-3.1.3/src/iperf_server_api.c:128-174 | a free server takes the connection and its parameters and asks for streams, or waits for a cookie that does not come; a busy one denies access and changes nothing else; a connection that fails under a read or write ends the call with an error and the server with it |
| ServerLoop.IperfServer.AcceptStream | app/src/main/jni/iperf-3.1.3/src/iperf_tcp.c:101-130 | a stream with another cookie is denied and not counted, any other stream is counted, one without a cookie blocks the server, and one that fails ends it |
| ServerLoop.IperfServer.HandleMessage | app/src/main/jni/iperf-3.1.3/src/iperf_server_api.c:178-247 | the whole new state of the server for every state byte |
| ServerLoop.IperfServer.Turn | app/src/main/jni/iperf-3.1.3/src/iperf_server_api.c:470-610 | one turn of the select loop: a message, or the end of the connection, that is ready is always served, behind what is ready on the listener; the listener is always served outside CREATE_STREAMS; and in CREATE_STREAMS, without a message, the stream that is ready; exactly the connections it should are denied |
| ServerLoop.ReadyIsServed | app/src/main/jni/iperf-3.1.3/src/iperf_server_api.c:484-585 | the same for the reactions that the protocol is told in |
| ClientLoop.IperfClient.CreateStreams | app/src/main/jni/iperf-3.1.3/src/iperf_client_api.c:47-78 | as many connections as streams, none for a negative number |
| ClientLoop.IperfClient.HandleMessage | app/src/main/jni/iperf-3.1.3/src/iperf_client_api.c:191-277 | the whole new state of the client for every state byte |
| ClientLoop.AnswersTo | app/src/main/jni/iperf-3.1.3/src/iperf_client_api.c:191-277 | what is sent and taken on each state byte, and which ones end the loop; SERVER_TERMINATE ends it with an error |
| ClientLoop.IperfClient.Turn | app/src/main/jni/iperf-3.1.3/src/iperf_client_api.c:367-444 | a turn of the loop: the message, TEST_END when the end condition holds, and the draining of the streams of a reverse test, which happens exactly in the turns in TEST_END without a message |
| Turns.StreamsMade | app/src/main/jni/iperf-3.1.3/src/iperf_client_api.c:47-78 | the loop that makes the streams, from any of them on and for any number, is a run of protocol steps: one for each over TCP, three with the server's answer over UDP |
| Turns.ClientTurn | app/src/main/jni/iperf-3.1.3/src/iperf_client_api.c:367-444 | in every reachable state a turn of the client's loop, with a message or without one, blocking exchanges included, is a run of protocol steps that ends in a reachable state with the client as the turn leaves it |
| Turns.ServerTurn | app/src/main/jni/iperf-3.1.3/src/iperf_server_api.c:484-585 | so is every reaction of the server's loop to its client, to the client's end and to a stranger who does not come first, failing ones included; and it says where the client is after it |
| Turns.ExchangeTurn | app/src/main/jni/iperf-3.1.3/src/iperf_api.c:1268-1287 | the turns in which results are exchanged overlap; together they are one run that leaves each side as its own turn leaves it |
| Turns.GivesUp | app/src/main/jni/iperf-3.1.3/src/iperf_udp.c:363-387 | a client's turn that ends over a lost datagram, after any number of streams, whether or not the server took the last one, is a run of protocol steps as well |
| Sessions.TurnBetween | app/src/main/jni/iperf-3.1.3/src/iperf_client_api.c:367-444 | a turn of either loop, from a reachable state in which neither is in the middle of one, leads to another such state |
| Sessions.LoopTurnIsSession | app/src/main/jni/iperf-3.1.3/src/iperf_server_api.c:470-610 | a turn of the server's loop in a reachable state, with whatever is ready there, is a session of a turn for each event that it serves, none of them idle; there are none only if nothing is ready, or nothing but a listener that is not looked at in the CREATE_STREAMS of UDP |
| Sessions.LoopsRun | app/src/main/jni/iperf-3.1.3/src/iperf_client_api.c:331-457 | turns of both loops in any order, among any visitors and with any losses, are a run of the protocol; those that do anything are no more than its measure and two for every visit |
| Sessions.StoppedSessionIsFinished | app/src/main/jni/iperf-3.1.3/src/iperf_client_api.c:331-457 | a session from the start in which only visits and idle turns are left has finished on both sides if and only if no stranger took the server away and no datagram for a stream was lost, and then parameters and results are exchanged and nothing is left unread |
| Wire.ReadBack | app/src/main/jni/iperf-3.1.3/src/iperf_api.c:1046-1055 | cookie, state byte and frame: the right reader gets the item, with the numbers of a frame as they are shown, and leaves everything behind it, for texts shorter than 2^31 |
| Wire.BytesInStep | app/src/main/jni/iperf-3.1.3/src/iperf_api.c:1268-1287 | in every reachable state the bytes on their way to a side begin with what it is about to read, and the read leaves exactly the bytes of the items behind it |
| Wire.WrongReader | app/src/main/jni/iperf-3.1.3/src/iperf_client_api.c:197 | a reader out of step that takes a frame shorter than 2^24 for a state reads the code 0, at which either side gives up |
| Wire.OptionsSendable | app/src/main/jni/iperf-3.1.3/src/iperf_api.c:1291-1360 | the parameters of every client whose fields are in range meet the conditions of these theorems, if their text is shorter than 2^31, and arrive unchanged |
| Wire.ResultsSendable | app/src/main/jni/iperf-3.1.3/src/iperf_api.c:1436-1518 | so do the results of every test, whatever its CPU use and jitter, if their text is shorter than 2^31 |
| ControlFrame.Connection.Nread | app/src/main/jni/iperf-3.1.3/src/net.c:217-237 | however the system cuts the transfer: the next bytes in order and not one more than asked for, all of them unless the connection ends or fails; the count is returned as an int |
| ControlFrame.Connection.Nwrite | app/src/main/jni/iperf-3.1.3/src/net.c:244-273 | however the system cuts the transfer: the first bytes of the buffer in order, all of them unless the connection fails; the count is returned as an int |
| ControlFrame.LengthRoundTrip | app/src/main/jni/iperf-3.1.3/src/iperf_api.c:1650-1684 | the four octets give the length back |
| ControlFrame.Connection.JsonWrite | app/src/main/jni/iperf-3.1.3/src/iperf_api.c:1650-1672 | on a reliable connection the frame of the printed text is appended, and -1 is returned if and only if its length is negative as an int; on another, parts of length and text |
| ControlFrame.Connection.JsonRead | app/src/main/jni/iperf-3.1.3/src/iperf_api.c:1676-1713 | on a reliable connection the tree of the next frame, or NULL if the stream ends too early, does not parse, or is announced with 2^31 bytes or more, and the rest of the stream; the buffer is overrun if and only if the length is 2^32 - 1 and a byte follows |
| ControlFrame.FrameRoundTrip | app/src/main/jni/iperf-3.1.3/src/iperf_api.c:1650-1713 | of a tree whose text has less than 2^32 characters, what it conveys arrives if and only if the text is shorter than 2^31, and the rest of the stream is left |
| ControlFrame.FramesInOrder | app/src/main/jni/iperf-3.1.3/src/iperf_api.c:1650-1713 | two frames shorter than 2^31 are read in the order they were written |
| ControlFrame.ReadFrameNamed | app/src/main/jni/iperf-3.1.3/src/iperf_api.c:1676-1713 | whatever bytes come, the names of the tree that is read are C strings |
| Parameters.NamesDiffer | app/src/main/jni/iperf-3.1.3/src/iperf_api.c:1303-1347 | no two keys are the same but for the case of letters, so no lookup finds another's value |
| Parameters.ItemSent | app/src/main/jni/iperf-3.1.3/src/iperf_api.c:1303-1395 | each key is found in the object if and only if its field was sent, with the value sent |
| ParameterExchange.ReceivedTest | app/src/main/jni/iperf-3.1.3/src/iperf_api.c:1380-1396 | the fields of the test: the client's value if it was sent, else the server's own |
| ParameterExchange.ReceivedLimits | app/src/main/jni/iperf-3.1.3/src/iperf_api.c:1388-1412 | the same for the settings, through the conversions to the C integer types |
| ParameterExchange.ReceivedFlags | app/src/main/jni/iperf-3.1.3/src/iperf_api.c:1394-1424 | the same for flags and strings; the direction of the server is turned if and only if the client asked for it |
| ParameterExchange.AgreementIffComplements | app/src/main/jni/iperf-3.1.3/src/iperf_api.c:1291-1432 | for any client in range and any server: the two agree on every field if and only if the server already has the value of each field that was not sent |
| ParameterExchange.ParametersArrive | app/src/main/jni/iperf-3.1.3/src/iperf_api.c:1291-1432 | the same through the frame on the wire: the object arrives as it was sent if and only if its text is shorter than 2^31, with the rest of the stream left unread |
| ParameterExchange.FreshServerAgrees | app/src/main/jni/iperf-3.1.3/src/iperf_api.c:1825-1864 | a server fresh from its defaults agrees with a client if and only if the client's duration and block size are not zero |
| ParameterExchange.UsedServerAgrees | app/src/main/jni/iperf-3.1.3/src/iperf_api.c:2033-2096 | a server after iperf_reset_test agrees if and only if, besides, each field the reset leaves was sent again or was not set |
| ParameterExchange.LimitOutlivesItsClient | app/src/main/jni/iperf-3.1.3/src/iperf_api.c:2033-2096 | so the byte limit of one client can apply to the next |
| ParameterExchange.OneSender | app/src/main/jni/iperf-3.1.3/src/iperf_api.c:368-400 | exactly one side sends, if and only if -R came an even number of times after -c when it had also come before, and never or an odd number of times when it had not |
| ParameterMethods.Test.ResetTest | app/src/main/jni/iperf-3.1.3/src/iperf_api.c:2064-2096 | which fields the reset restores and which it leaves |
| ParameterMethods.Test.SetRole | app/src/main/jni/iperf-3.1.3/src/iperf_api.c:368-379 | the sender flag follows role and direction |
| ParameterMethods.Test.SetReverse | app/src/main/jni/iperf-3.1.3/src/iperf_api.c:393-400 | every call with a true argument toggles the sender flag |
| ParameterMethods.Test.SendParameters | app/src/main/jni/iperf-3.1.3/src/iperf_api.c:1291-1360 | the object built field by field goes out as one frame, and the call fails exactly for a length that is negative as an int |
| ParameterMethods.Test.GetParameters | app/src/main/jni/iperf-3.1.3/src/iperf_api.c:1364-1432 | the fields after the object that came, and the stream behind it; nothing changes if none came |
| Results.NumbersMatch | app/src/main/jni/iperf-3.1.3/src/iperf_api.c:2899-2918 | the numbers 1, 3, 4, 5, ... are distinct and the same on both sides, so every id finds its stream |
| Results.StreamReported | app/src/main/jni/iperf-3.1.3/src/iperf_api.c:1572-1618 | one element of the array updates its own stream, and no other, with the fields that the direction calls for |
| Results.ElementsTaken | app/src/main/jni/iperf-3.1.3/src/iperf_api.c:1572-1618 | whatever elements come, each stream ends up with the fields of the last one for it, or as it was |
| Results.TakenIff | app/src/main/jni/iperf-3.1.3/src/iperf_api.c:1551-1606 | for any tree, the call fails if and only if a part of the results is missing, or an element lacks a field or has an id that no stream has |
| Results.ResultsTaken | app/src/main/jni/iperf-3.1.3/src/iperf_api.c:1527-1645 | results from a side with as many streams are taken whole, without an error: streams, CPU use as it is shown, retransmit support, and the server's output by a client that asked for it |
| Results.ResultsAgree | app/src/main/jni/iperf-3.1.3/src/iperf_api.c:1268-1287 | after the exchange both sides hold, for each stream, the sender's bytes without the omitted ones, the receiver's bytes, errors and packets, the retransmits, and the jitter as it is shown; the difference with the receiver's own offset agrees if and only if that is zero; the client holds the server's output if both asked for it |
| Results.ResultsExchanged | app/src/main/jni/iperf-3.1.3/src/iperf_api.c:1268-1287 | the same through the frames of both directions, for all results whose texts are shorter than 2^31: each frame is read to its end and not further |
| Results.JitterNear | app/src/main/jni/iperf-3.1.3/src/iperf_api.c:1608-1612 | the jitter at the two sides differs by half of a microsecond at most |
| ResultMethods.Test.AddStream | app/src/main/jni/iperf-3.1.3/src/iperf_api.c:2899-2918 | appends with the next number and keeps the numbering |
| ResultMethods.Test.BuildResults | app/src/main/jni/iperf-3.1.3/src/iperf_api.c:1436-1510 | the tree of the side's results, the server's output among them, stream by stream |
| ResultMethods.Test.OutputText | app/src/main/jni/iperf-3.1.3/src/iperf_api.c:1470-1485 | the lines of the output in one string: the room left for the bounded copy is always enough |
| ResultMethods.Test.FindStream | app/src/main/jni/iperf-3.1.3/src/iperf_api.c:1604-1605 | the first stream with the id, or the end of the list |
| ResultMethods.Test.TakeResults | app/src/main/jni/iperf-3.1.3/src/iperf_api.c:1527-1645 | the whole new state for any tree: missing parts and unknown ids give an error without stopping the loop, and the server's output is kept |
| UdpLoss.UdpStream.Recv | app/src/main/jni/iperf-3.1.3/src/iperf_udp.c:98-110 | the three counters after a datagram that is next, ahead or late |
| UdpLoss.UdpStream.Send | app/src/main/jni/iperf-3.1.3/src/iperf_udp.c:143-168 | the number a datagram carries is one more than the last, whether or not it could be written |
| UdpLoss.EveryDatagramCounts | app/src/main/jni/iperf-3.1.3/src/iperf_udp.c:98-110 | for every sequence of counters: datagrams received = packets - errors + out of order, and packets is the maximum seen |
| UdpLoss.CountsAre | app/src/main/jni/iperf-3.1.3/src/iperf_udp.c:98-110 | for every sequence of counters: what is reported as out of order is the number of datagrams behind one with their own number or a larger one, or with the number 0; the errors are the numbers up to the largest that had not come when a larger one first did |
| UdpLoss.LossIsExact | app/src/main/jni/iperf-3.1.3/src/iperf_udp.c:98-110 | the numbers that never came exceed errors - out of order by the duplicates and zeros received; so the reported loss is exact if and only if all counters are distinct and at least 1 |
| UdpLoss.OrderDoesNotMatter | app/src/main/jni/iperf-3.1.3/src/iperf_udp.c:98-110 | any reordering of the same datagrams gives the same packets and the same loss |
| UdpLoss.LossOfSender | app/src/main/jni/iperf-3.1.3/src/iperf_udp.c:98-168 | of numbered datagrams that arrive at most once, all lost ones are reported but those after the last arrival |
| Tally.AfterKeeps | app/src/main/jni/iperf-3.1.3/src/iperf_api.c:2117-2221 | bytes, retransmits, intervals, statistics and the end of the omitted period keep the balance of every stream and of the test, and a receiver has sent nothing |
| Tally.AlwaysBalanced | app/src/main/jni/iperf-3.1.3/src/iperf_api.c:2117-2221 | in every run from the start: intervals that count plus the current one equal the bytes transferred once omitting is over, the test's own count is the sum over the streams, each interval starts where the last ended, and the UDP parts add up to the last counts taken |
| TallyHistory.RunFollows | app/src/main/jni/iperf-3.1.3/src/iperf_api.c:2117-2221 | in every run from the start, the counts of a stream, its times and its number of intervals, and the blocks of the test, are those that the events tell |
| TallyHistory.IntervalIs | app/src/main/jni/iperf-3.1.3/src/iperf_api.c:2153-2221 | for every callback of every run: the interval it closed ends at that time, starts at the one before, or for the first at the start of the stream or the end of the omitted period, and holds the bytes since then, the datagrams counted and the retransmits; and it is still there at the end |
| TallyHistory.NeverNegative | app/src/main/jni/iperf-3.1.3/src/iperf_api.c:2166-2175 | with a clock that does not run backwards no interval ends before it starts |
| TallyHistory.ReportedTime | app/src/main/jni/iperf-3.1.3/src/iperf_api.c:2397 | the time that the report divides by is what the counted intervals last if and only if there are no omitted ones or the omitted period ended with the last of them; else the intervals last longer by what was between |
| TallyHistory.LongerThanReported | app/src/main/jni/iperf-3.1.3/src/iperf_api.c:2397 | an input of that kind |
| Tally.ReportIsSum | app/src/main/jni/iperf-3.1.3/src/iperf_api.c:1495-1509 | at any moment what a stream would report as transferred is what its intervals add up to and the bytes since the last of them, and the retransmits are those of the intervals |
| Tally.ReportIsSumOfIntervals | app/src/main/jni/iperf-3.1.3/src/iperf_api.c:1495-1509 | when the intervals have just been closed, what is to be reported as transferred, and as sent again, is what they add up to: those that count, or the omitted ones of a test that is still omitting |
| Tally.DatagramsReported | app/src/main/jni/iperf-3.1.3/src/iperf_api.c:2416-2417 | a stream's own datagrams, losses and reorderings less those to be left out, which is what a server that receives prints, when its intervals have just been closed: the counted intervals hold besides exactly what came between the last omitted interval and the end of the omitted period, and agree with the report if and only if that is nothing |
| Tally.OmittedInInterval | app/src/main/jni/iperf-3.1.3/src/iperf_api.c:2124-2132 | an input of the failing kind: datagrams that come after the last omitted interval are in the first one that counts, and not in the report |
| Tally.ShortWhileOmitting | app/src/main/jni/iperf-3.1.3/src/iperf_api.c:2117-2160 | while omitting, that balance holds if and only if the omitted intervals are empty |
| TallyMethods.IperfTest.Recv | app/src/main/jni/iperf-3.1.3/src/iperf_api.c:1132-1151 | each ready stream receives once, up to the first error, whose value is returned; all that was received is counted |
| TallyMethods.ReceptionsAre | app/src/main/jni/iperf-3.1.3/src/iperf_api.c:1132-1151 | one reception, with what it returned, for each ready stream before the first error, in their order, and no other |
| TallyMethods.FirstFailureIs | app/src/main/jni/iperf-3.1.3/src/iperf_api.c:1138-1141 | the value returned is that of the first ready stream that fails, or 0 |
| TallyMethods.IperfTest.StatsCallback | app/src/main/jni/iperf-3.1.3/src/iperf_api.c:2153-2221 | the loop closes the interval of every stream at the time read for it, with its bytes, its datagrams and the retransmits the system counted |
| TallyMethods.IperfTest.EndOmitting | app/src/main/jni/iperf-3.1.3/src/iperf_client_api.c:148-158 | omitting ends and the loop of iperf_reset_stats clears the counts of every stream and keeps the datagrams to be left out |
| FinalReport.StatsEnd | app/src/main/jni/iperf-3.1.3/src/iperf_server_api.c:200-203 | the statistics callback with which either side ends its test leaves no bytes behind the last interval of any stream |
| FinalReport.FinalReports | app/src/main/jni/iperf-3.1.3/src/iperf_api.c:1268-1287 | for any two tests that exchange their results, draining or omitting ones included, both sides hold for every stream the sender's intervals and the bytes since the last of them as sent, and its retransmits, and the receiver's intervals and the bytes since the last of them as received; and both hold the receiver's packets and errors |
| FinalReport.DrainedIsReported | app/src/main/jni/iperf-3.1.3/src/iperf_client_api.c:428-443 | a client of a reverse test goes on receiving after its last interval: it reports the sum of its intervals and what it drained, so the sum of its intervals if and only if it drained nothing |
| FinalReport.ReverseTest | app/src/main/jni/iperf-3.1.3/src/iperf_client_api.c:428-443 | so both sides of a reverse test report as sent the server's intervals, and as received the client's and what it drained |
| FinalReport.DrainedBehindLastInterval | app/src/main/jni/iperf-3.1.3/src/iperf_client_api.c:428-443 | an input: 100 bytes in the intervals and 150 in the report |
| FinalReport.DatagramReports | app/src/main/jni/iperf-3.1.3/src/iperf_api.c:2416-2417 | a server prints before the exchange, a client after it: a client that sends prints the receiver's counts less its own omitted ones, so what the server has printed if and only if both omitted as many packets and as many losses |
| FinalReport.SendersIntervals | app/src/main/jni/iperf-3.1.3/src/iperf_api.c:1610-1613 | what a client that sends prints is what its own intervals hold if and only if the receiver's counts exceed its own by what it counted between the last omitted interval and the end of the omitted period; so, if that is nothing, if and only if they are its own |
| FinalReport.LossNotInIntervals | app/src/main/jni/iperf-3.1.3/src/iperf_api.c:1610-1613 | an input without an omitted period: ten datagrams sent, one lost, and no loss in the intervals of the client |
| FinalReport.DrainedDatagrams | app/src/main/jni/iperf-3.1.3/src/iperf_client_api.c:428-443 | a client that receives prints its counted intervals, what it drained behind them, and less what came between the last omitted interval and the end of the omitted period |
| Sending.SlowMeansWithin | app/src/main/jni/iperf-3.1.3/src/iperf_api.c:1065-1067 | the truncated quotient is below the rate if and only if the bytes are below what the rate allows |
| Sending.Sender.CheckThrottle | app/src/main/jni/iperf-3.1.3/src/iperf_api.c:1057-1074 | the green light is given exactly to a stream that is behind its rate, and not changed once the test is done |
| Sending.Sender.Snd | app/src/main/jni/iperf-3.1.3/src/iperf_tcp.c:76-93 | whatever part of a block is taken, stream and test count it, and no stream gets ahead by more than a block |
| Sending.Sender.Round | app/src/main/jni/iperf-3.1.3/src/iperf_api.c:1089-1119 | one pass over the streams: it sends once on each stream that may send, in their order, up to where it stops; it stops at an error, or at a limit if more passes are to come, and for no other reason; and how far it can pass a limit, in the last pass and before |
| Sending.SendsExactly | app/src/main/jni/iperf-3.1.3/src/iperf_api.c:1095-1108 | which streams those are, and that each sends what its write took |
| Sending.SendsInOrder | app/src/main/jni/iperf-3.1.3/src/iperf_api.c:1095-1108 | each stream at most once, in the order of the list |
| Sending.Sender.Send | app/src/main/jni/iperf-3.1.3/src/iperf_api.c:1076-1130 | a call makes its passes until one is idle or fails, and sets the lights as the throttle says; one that starts below the limit ends below limit + (rounds - 1 + streams) * blksize, and likewise for blocks; and with user-level pacing 8 * bytes <= rate * elapsed + 8 * block (or burst) at every moment of the call |
| Sending.Sender.EveryStreamSends | app/src/main/jni/iperf-3.1.3/src/iperf_api.c:1076-1119 | without a limit, if no write fails, every pass is made, burst, multisend or one of them, and every stream that may send, with pacing those whose light is green and whose socket is ready, sends in each |
| Sending.Sender.SendTimerProc | app/src/main/jni/iperf-3.1.3/src/iperf_api.c:1179-1189 | the periodic check sets the light by the throttle, and keeps the bound |
| Sending.Sender.Callback | app/src/main/jni/iperf-3.1.3/src/iperf_api.c:2117-2144 | statistics and the end of the omitted period keep the bound |
| Sending.Sender.Drive | app/src/main/jni/iperf-3.1.3/src/iperf_client_api.c:391-444 | calls of iperf_send, timers, statistics and the end of the omitted period in any order: each does what it says, up to a write that fails, and all keep the bound |
| Sending.SendingRun | app/src/main/jni/iperf-3.1.3/src/iperf_client_api.c:391-444 | so at every moment of every run from the start, with user-level pacing, no stream is ahead of its rate by more than a block, or a burst |

## Left out

- JsonParser.ParseString: a backslash before the terminator makes the scan step over it; the model reads NUL there, the code whatever follows.
- JsonParser.ParseNumber: the double arithmetic that rounds fractions and integers above 2^53, and the wrap of an exponent beyond 32 bits, are not modelled.
- JsonNumber.NumeralParsed: the value is that of exact arithmetic, which the code's doubles approximate.
- JsonParser.ParseValue: builds the tree as a value; that the nodes it links form the chains of ChildList is modelled for the list routines only.
- JsonPrinter.Print: infinities and NaN, which print as null, are not numbers of the model; nor is the empty text for a NULL string modelled.
- JsonBuffer.PrintBuffered: total sizes above 2^30, where the power of two would overflow, are excluded.
- Unicode.DecodingKeepsUtf8: says nothing of literals that were not UTF-8 to begin with, which the code passes through.
- Timers.TimerLists.TmrRunResetting: procedures reset timers of the active list, and do not create or cancel any; TmrRun is for those that leave the lists alone.
- Timers.TimerLists.TmrCreate: a NULL time, for which the code asks the clock, is the caller's clock here.
- Protocol.StepInv: signals, CLIENT_TERMINATE by the user and SERVER_ERROR are not steps; the control connection of the client itself fails only with the end of a side; a client whose server has ended is followed to its next read; what a server does for a stranger who came first is not followed; over UDP only the client's own datagrams arrive, or are lost.
- ServerLoop.IperfServer.AcceptStream: over UDP any datagram announces a stream, as in the code, so nothing is claimed of its origin; a caller who closes before its cookie is complete counts as one with another cookie, where the code compares what its memory holds.
- ClientLoop.IperfClient.Turn: the end condition of a test, by time, bytes or blocks, is a number of rounds that is left open, and what is drained in a turn is a number of bytes.
- ParameterExchange.ParametersArrive: for counts up to 2^53; SCTP is not in this build; sender_has_retransmits, which depends on the kernel, is not modelled; a title that is no string, which the code would copy through a null pointer, counts as none.
- Results.ResultsAgree: for counts up to 2^53; an output text that is no string, which the code would copy through a null pointer, counts as none.
- UdpLoss.EveryDatagramCounts: no counter beyond 32 bits; jitter, which is an average in floating point, is not modelled.
- TallyMethods.IperfTest.StatsCallback: of TCP_INFO the retransmits are modelled, and congestion window and round trip times are not.
- TallyMethods.IperfTest.EndOmitting: the timers reset along with the counts are those of TmrRunResetting; the jitter that is cleared is not modelled.
- Sending.Sender.Send: elapsed times are positive microseconds; the quotient of doubles is exact; without user-level pacing the rate is left to the kernel, and only the limits are claimed.
- Sockets, select, name resolution, files, sendfile, signals and threads.
- Reports, units, locale, error texts and the parsing of arguments.
- The Android application around the library: JNI glue, view models and widgets.
