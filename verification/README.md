# Verified core of DBHandler

A Dafny model of the state machines and text builders under the user interface of DBHandler, a
database administration program written in C++ on wxWidgets, with proofs of what they keep and
of when they fail. `dafny verify dfyconfig.toml` checks the whole project.

| file | what it models |
|---|---|
| `WorkerProtocol.dfy`, `WorkerSafety.dfy`, `WorkerProgress.dfy`, `WorkerFairness.dfy`, `WorkerEvents.dfy` | the polling thread beside the frame that starts it, stops it and waits for it, and the windows that call its database, every interleaving of them; the parameter `held` says whether the unnamed guards live to the end of their block (`true`, the intended reading) or are temporaries (`false`, the code) |
| `Wrappers.dfy`, `Seqs.dfy` | a value that may be missing; a function on the elements of a sequence |
| `Text.dfy` | `find`, `Replace` and joining on strings, and what they do to a text made of known parts |
| `SelectText.dfy` | the SELECT list edited inside the query text, and a reader of that list |
| `RecordVector.dfy` | `remove_if` and `insert` in place on records whose assignment does nothing between equal names |
| `FieldLists.dfy` | the document's available and selected fields, moved by these operations, and the query fields |
| `GroupSortText.dfy` | the GROUP BY and ORDER BY clauses edited inside the query text |
| `ClauseEffects.dfy` | what each action on the two pages does to a text in step with the lists, and which keep it so |
| `QueryEditing.dfy` | the view's two handlers that keep the text in step with the document, and the whole text they produce together |
| `JoinText.dfy` | the FROM list and the WHERE clause written from tables and foreign keys |
| `ArgumentRows.dfy` | the rows of the retrieval-arguments dialog, their sizer, labels, pointers and current line |
| `FieldStrip.dfy` | the strip of field boxes: where they stand and what a drag does to their order |
| `IndexDialog.dfy` | the index dialog: enabled buttons, coupled settings, the generated command |
| `IndexCommand.dfy` | that command read back: its words, columns, clauses and options |

Objects that the program updates in place are classes here, with methods proved against functions
on values; the results about runs are lemmas on those functions. Where a promise does not hold on
all inputs the lemma gives the exact condition, as an if-and-only-if on what a caller can check.

The toolkit enters as contracts. `SetFocus` calls the focus handler at once, `Destroy` takes a
widget out of its sizer, a disabled button is not clicked, `Delete()` on a thread sets its stop
flag, `GetShapeAtPosition` gives a box that contains the position, and a box is as wide as a
measure of its name. Message boxes return. All databases are guarded by one mutex object. A call
that throws (`substr` out of range) or leaves a vector is an `Option` or an `ok` result.

## Model

| member | source | states |
|---|---|---|
| WorkerSafety.StepKeepsInv | dbhandler/mainframe.cpp:182-348 | every statement of the frame or of a thread, and every event, keeps the invariant that ties `m_db`, `m_handler`, the mutex and the program counters together |
| WorkerSafety.RunKeepsInv | dbhandler/mainframe.cpp:182-348 | the invariant holds in every state of every run, under both readings of the guards |
| WorkerSafety.NoUseAfterDelete | dbhandler/newtablehandler.cpp:24-61 | in every reachable state a thread that may still touch its database finds it alive exactly when no view's Create Database has deleted it, and so does the frame's next statement; a view's next statement does exactly when, besides, its document's database is still the frame's |
| WorkerSafety.AliveWithoutCreate | dbhandler/mainframe.cpp:182-348 | in a run without a Create Database threads and frame find their databases alive without exception, a view exactly while its document's database is the frame's, and no database is lost |
| WorkerSafety.ReconnectUnderWindow | dbhandler/mainframe.cpp:502-505 | a run that connects, opens a window, connects again and uses the window: the window's call goes to a deleted database |
| WorkerSafety.CreateUnderThread | libdbwindow/databaseview.cpp:1139-1165 | a run in which a window's Create Database deletes the database that the thread is about to poll |
| WorkerSafety.DeletesOnlyAbandoned | dbhandler/mainframe.cpp:308-313 | a statement that deletes a database, unless it is a view's Create Database, runs only with `m_handler` null and every thread on that database gone |
| WorkerSafety.TouchesNoMore | dbhandler/newtablehandler.cpp:24-61 | a statement that touches the database is one of a thread that may touch it, and no step of anyone lets a thread that may not do so again |
| WorkerSafety.TouchesAhead | dbhandler/newtablehandler.cpp:40-61 | a thread that may touch its database does so now or is left able to by its next statement |
| WorkerSafety.OneThreadAtWork | dbhandler/mainframe.cpp:335-347 | at most one thread can still touch a database; `m_handler` is exactly the thread that has not cleared it, and its database is `m_db` |
| WorkerEvents.IdleFrame | dbhandler/mainframe.cpp:335-347 | an idle frame with a database has a thread made on it and started, gone only when asked to stop or failed; without one it has no handler and all threads are gone |
| WorkerSafety.CallsNeverOverlap | libdbwindow/databaseview.cpp:714-716 | a poll and a view's guarded database call, or two polls, are never in progress together |
| WorkerSafety.NoDatabaseLeaks | dbhandler/mainframe.cpp:308-321 | the databases alive are the frame's and the one being installed, without those a view deleted, and those a Create Database made and lost; an ended frame leaves only the last |
| WorkerSafety.NoDeadlock | dbhandler/mainframe.cpp:299-307 | whoever holds the mutex can move; a frame or thread that cannot move waits for a holder that can |
| WorkerSafety.SelfStoppedThread | dbhandler/newtablehandler.cpp:50-54 | a run in which a thread stops by itself and is about to clear `m_handler` while the frame closes |
| WorkerSafety.DeleteMeetsLiveHandler | dbhandler/mainframe.cpp:189-200 | `Delete()` is only called on a handler still set, in all runs, exactly when the guard spans test and call; with the temporaries of the code it is not |
| WorkerProgress.RankFalls | dbhandler/newtablehandler.cpp:44-61 | each statement of a thread asked to stop brings it exactly one step nearer to its end |
| WorkerProgress.GuardComesFree | dbhandler/mainframe.cpp:299-307 | the waiting frame does not keep the mutex from a thread that wants it |
| WorkerProgress.ThreadEnds | dbhandler/newtablehandler.cpp:40-61 | on a fair behaviour the thread asked to stop is gone some time later |
| WorkerProgress.WaitLoopEnds | dbhandler/mainframe.cpp:201-212 | on every strongly fair infinite behaviour the wait loop is left, with `m_handler` null, for what the stop was asked for |
| WorkerProgress.MutexComesFree | dbhandler/newtablehandler.cpp:44-57 | a frame that stays where it is finds the mutex free some time later, whatever the thread does with it |
| WorkerProgress.ComesToRest | dbhandler/mainframe.cpp:182-348 | on every strongly fair behaviour the frame comes to rest from wherever it is: at its end when it is closing, idle otherwise |
| WorkerProgress.EventsFinish | dbhandler/mainframe.cpp:182-348 | a close ends the frame, a connection, a view's call or its Create Database gives it back, from the event itself and against a thread that keeps polling, stops by itself or never started |
| WorkerEvents.ConnectStarts | dbhandler/mainframe.cpp:288-347 | in every run a connection that gives the frame back has made exactly one thread: the handler, at the start of its loop on the new database; when `Run` has failed there is neither database nor handler |
| WorkerEvents.ConnectFinishes | dbhandler/mainframe.cpp:288-347 | on every fair behaviour a connection comes to that |
| WorkerEvents.CallIsMade | libdbwindow/databaseview.cpp:708-716 | when the frame is idle again after a window's call, the call has been in progress on that database with the mutex the frame's |
| WorkerEvents.CloseDisconnects | dbhandler/mainframe.cpp:153-175 | a connected frame that has closed has come to the disconnecting of its database |
| WorkerEvents.LeavesForCause | dbhandler/newtablehandler.cpp:40-61 | a thread leaves its loop only after a failed poll of its own or a request of the frame that found it as handler |
| WorkerFairness.WeakFairnessWaits | dbhandler/mainframe.cpp:201-212 | strong fairness is needed: a weakly fair behaviour waits forever, the frame taking the mutex again each time before the thread's destructor |
| Text.Find | libdbwindow/databaseview.cpp:1185-1186 | the position of the first occurrence, -1 exactly when there is none |
| Text.ReplaceNothing | libdbwindow/databaseview.cpp:1182 | replacing all leaves a text alone exactly when the pattern is not in it |
| Text.ReplaceSole | libdbwindow/databaseview.cpp:1187 | replacing all is replacing the first exactly when the pattern does not come again |
| Text.JoinInjective | libdbwindow/databasedoc.cpp:346-356 | a joined list tells its texts when a character of the separator is in none of them |
| Text.ReplaceJoins | libdbwindow/databaseview.cpp:1593 | replacing all is splitting at the pattern and joining by the replacement |
| Text.PiecesExactly | libdbwindow/databasedoc.cpp:346-356 | splitting a text joined by a character gives the parts back exactly when none holds the character |
| SelectText.AddFirst | libdbwindow/databaseview.cpp:1181-1182 | the first field takes the marker's place, and nothing else changes, exactly when the marker is not in the rest of the text |
| SelectText.AddNext | libdbwindow/databaseview.cpp:1183-1188 | a later field is appended to the list exactly when no listed name holds FROM and the list does not come again behind it |
| SelectText.AddsInOrder | libdbwindow/databaseview.cpp:1175-1191 | a run of ADDs from the text without fields lists all names in order and keeps everything from FROM on, when no name but the last holds FROM and marker and first entry are not in the rest |
| SelectText.ReadsNames | libdbwindow/databaseview.cpp:1183-1188 | splitting that list at the commas and trimming gives back the names |
| SelectText.FindName | libdbwindow/databaseview.cpp:1208 | the first place where a listed quoted name occurs is its own |
| SelectText.RemoveOnly | libdbwindow/databaseview.cpp:1198-1201 | the only name gives way to the marker exactly when the rest of the text does not hold it |
| SelectText.RemoveHead | libdbwindow/databaseview.cpp:1202-1215 | the first of several names is taken out exactly when the rest has no comma, blank and that name |
| SelectText.RemoveLater | libdbwindow/databaseview.cpp:1202-1215 | a middle or last name is always taken out, and only it |
| SelectText.ReadsRemaining | libdbwindow/databaseview.cpp:1192-1215 | the list read after a REMOVE is the old one without the name, or the marker |
| RecordVector.CompactedIsKept | libdbwindow/databasedoc.h:29-40 | `remove_if` with the guarded assignment filters exactly when every record moved forward differs in name from the one it overwrites, or equals it |
| RecordVector.ShiftedIsInserted | libdbwindow/databasedoc.h:29-40 | a shifting `insert` puts the record in place exactly when every shift takes effect in the same sense |
| RecordVector.DistinctCompacted | libdialogs/quickselect.h:9-20 | with pairwise distinct names `remove_if` is the filter on whole records |
| RecordVector.DistinctShifted | libdialogs/quickselect.h:9-20 | with pairwise distinct names, the new one included, `insert` is the insertion on whole records |
| RecordVector.RemoveIf | libdbwindow/databasedoc.cpp:210-214 | the in-place loops leave in front what the specification of `remove_if` says |
| RecordVector.ShiftBack | libdbwindow/databasedoc.cpp:218 | the backward assignments of an `insert` leave what its specification says |
| RecordVector.Vector.RemoveNamed | libdbwindow/databasedoc.cpp:336-340 | `erase( remove_if )` on a vector with spare room |
| RecordVector.Vector.Insert | libdbwindow/databasedoc.cpp:341-344 | `insert` shifts in place when there is room, and copies without any assignment when there is none |
| FieldLists.MoveConserves | libdbwindow/databasedoc.cpp:268-275 | a move keeps the multiset of names of both lists exactly when the field is in the list it is taken from |
| FieldLists.RunConserves | libdbwindow/databasedoc.cpp:208-275 | over any run of takes, returns and shuffles, each of a field in the list it looks in, no name is lost or doubled, within or across the lists |
| FieldLists.ShuffleMovesOne | libdbwindow/databasedoc.cpp:392-406 | a shuffle puts the field at the asked place and leaves the order of the others |
| FieldLists.MovePlaces | libdbwindow/databasedoc.cpp:208-406 | on all lists every move leaves its field at the position asked for, with the others in order, and takes the name out of the list it comes from |
| FieldLists.NestRestores | libdbwindow/databasedoc.cpp:334-367 | properly nested takes of available fields and returns, each return to the index at the take, restore the available names in order and the selected records |
| FieldLists.InPlaceMoves | libdbwindow/databasedoc.cpp:336-344 | in all these moves, on lists without repeats, no guarded assignment is skipped, so the vectors hold what the move says |
| FieldLists.LeftByNames | libdbwindow/databasedoc.cpp:208-406 | in all lists, with repeats or without the field, the in-place operations do to the names what the move says |
| FieldLists.TakeConserves | libdbwindow/databasedoc.cpp:336-344 | a take keeps all names as often as they were there exactly when the available list holds the name once |
| FieldLists.PickedNamed | libdbwindow/databasedoc.cpp:394-402 | the record a shuffle puts back is the first one of its name |
| FieldLists.ReplacedRecord | libdbwindow/databasedoc.cpp:392-406 | the record a shuffle puts back carries the new position and keeps its inner one |
| FieldLists.DrawingDocument.AddGroupByFieldToQuery | libdbwindow/databasedoc.cpp:208-232 | the take for grouping, from available to the position, and the clause text of the new list |
| FieldLists.DrawingDocument.DeleteGroupByField | libdbwindow/databasedoc.cpp:268-293 | the return for grouping, and the clause text or nothing |
| FieldLists.DrawingDocument.ShuffleGroupByFields | libdbwindow/databasedoc.cpp:392-419 | the shuffle, and the names appended without a keyword |
| FieldLists.DrawingDocument.AddSortedField | libdbwindow/databasedoc.cpp:334-358 | the take for sorting; the position is passed as the ascending flag |
| FieldLists.DrawingDocument.DeleteSortedField | libdbwindow/databasedoc.cpp:360-385 | the return for sorting; a list with fields left is written under GROUP BY |
| FieldLists.OthersNames | libdbwindow/databasedoc.cpp:189-194 | taking out a field object and taking out its bare name come to the same exactly when no other query field has the name |
| FieldLists.DrawingDocument.AddRemoveField | libdbwindow/databasedoc.cpp:178-201 | ADD and REMOVE on query fields and sort records; they stay the same names exactly when the removed field is the only one of its bare name |
| GroupSortText.SortAddFirst | libdbwindow/databaseview.cpp:1566-1571 | the first sort field opens a line before the closing semicolon exactly when there is no other semicolon |
| GroupSortText.SortAddNext | libdbwindow/databaseview.cpp:1535-1537 | a later one rewrites the line exactly when no ORDER BY comes before it |
| GroupSortText.SortRemove | libdbwindow/databaseview.cpp:1581-1586 | removing a sort field leaves a text that follows the list exactly when the list has become empty |
| GroupSortText.SortRemoveNext | libdbwindow/databasedoc.cpp:371-385 | with sort fields left the line is rewritten under GROUP BY |
| GroupSortText.GroupAddFirst | libdbwindow/databaseview.cpp:1539-1564 | the first group field opens its line exactly when there is no other semicolon |
| GroupSortText.GroupRewrite | libdbwindow/databaseview.cpp:1525-1593 | a new group clause, for an addition, a removal with fields left or a shuffle, takes the place of the old one, and nothing else changes, exactly when no listed name holds HAVING or ORDER BY |
| GroupSortText.ClausesFollowLists | libdbwindow/databaseview.cpp:1520-1595 | after any run of group additions and then any run of sort additions the text is base, group line, sort line, semicolon, for the lists the runs leave |
| GroupSortText.ListsReadBack | libdbwindow/databasedoc.cpp:219-230 | for a given base such texts are equal exactly when both lists are |
| GroupSortText.ReadsLists | libdbwindow/databasedoc.cpp:219-230 | the names behind GROUP BY and ORDER BY, split at the commas and line breaks, are the two lists |
| GroupSortText.SortAddRemove | libdbwindow/databaseview.cpp:1581-1593 | adding a lone sort field and removing it restores the text |
| ClauseEffects.TextFollows | libdbwindow/databaseview.cpp:1520-1595 | on a text in step every action leaves it in step exactly when it is a sort addition, the removal of the last sort field, or, without a sort line, a group addition or the removal of one of several group fields |
| ClauseEffects.GroupOverSort | libdbwindow/databaseview.cpp:1525-1564 | over a sort line a new group clause runs into it: the line break is lost |
| ClauseEffects.GroupBeforeSort | libdbwindow/databaseview.cpp:1551-1556 | without a group line the first group field takes the place of the whole sort line and the semicolon |
| ClauseEffects.GroupRemoveLast | libdbwindow/databaseview.cpp:1577-1579 | removing the last group field leaves the text as it is |
| ClauseEffects.SortOther | libdbwindow/databaseview.cpp:1588-1593 | an action on the sort page that is neither addition nor removal takes the clause out and leaves its line break |
| ClauseEffects.EmptyText | libdbwindow/databaseview.cpp:1538-1557 | an empty text stays empty on the group page, and `substr` throws on the sort page |
| QueryEditing.DrawingView.AddFieldToQuery | libdbwindow/databaseview.cpp:1168-1223 | document and text after ADD, REMOVE and SHUFFLE; from a text in step ADD and REMOVE leave the intended one exactly under their conditions, and the tables and names read from it are the old ones with the field added or taken out |
| QueryEditing.LabelReads | libdbwindow/databaseview.cpp:1171-1173 | what stands in a label between the first quote and the first dot, and behind it up to the last quote, is the table and the name exactly when the table has no dot |
| QueryEditing.ReadsFields | libdbwindow/databaseview.cpp:1171-1188 | the SELECT list of a text read in this way gives the fields' tables and names, in order |
| QueryEditing.ReadsShown | libdbwindow/databaseview.cpp:1168-1595 | the text of what is shown tells the fields, the group names and the sort names |
| QueryEditing.DrawingView.SortGroupByHandling | libdbwindow/databaseview.cpp:1520-1595 | where the field is afterwards in either list, with the record's positions, the others in order and the other page's lists and query fields left alone; validity kept; a text in step is in step afterwards exactly for the steady actions; nothing changes when `substr` throws |
| QueryEditing.DrawingView.ChangeLists | libdbwindow/databaseview.cpp:1558-1592 | which move of the page's lists an action is, done as the move when the field is in the list it is taken from, with validity kept; the clause text it returns; the other page's lists and the query fields are left alone |
| QueryEditing.OthersLabels | libdbwindow/databasedoc.cpp:189 | with distinct labels a removed field leaves the labels before and behind it |
| QueryEditing.SortTakeConserves | libdbwindow/databasedoc.cpp:182-186 | with the bare names of the query fields available for sorting, taking a field by its label keeps the names exactly when the label is, once, such a bare name |
| QueryEditing.SortTakeDoubles | libdbwindow/databaseview.cpp:1172-1179 | when no bare name begins with a quote, nothing leaves the available list and the label is added to the selected one |
| QueryEditing.SortsTwice | libdbwindow/databaseview.cpp:1171-1179 | a field added to a new query and dragged to the sort list ends up in both lists, under two names |
| QueryEditing.TextTail | libdbwindow/databaseview.cpp:1168-1595 | the clauses are part of what stands behind the SELECT list, so both handlers see one text |
| QueryEditing.DrawingView.HandleAdd | libdbwindow/databaseview.cpp:1175-1191 | ADD on a text with any clauses leaves text and document in step exactly when the list, FROM text and clauses allow it |
| QueryEditing.DrawingView.HandlePage | libdbwindow/databaseview.cpp:1520-1595 | a page action changes the names as the move says, and leaves the text that of the document's lists exactly when it is a steady one |
| QueryEditing.DrawingView.HandleAll | libdbwindow/databaseview.cpp:1168-1595 | after every run of ticks and page actions, in any order, that each keep step, the text is that of the document's own three lists and these are what the run gives |
| QueryEditing.DrawingView.ComposeQuery | libdbwindow/databaseview.cpp:1168-1595 | from a new window, fields ticked, group fields dragged, sort fields dragged: the text is that of the document's query fields, group list and sort list, which hold what was added and are read back from it |
| QueryEditing.WholeQuery | libdbwindow/databaseview.cpp:1168-1595 | the same on the texts alone: SELECT list, FROM text, group line, sort line and semicolon, for the lists the additions give |
| QueryEditing.NewWindow | libdbwindow/databaseview.cpp:546-604 | ADDs on the text a new query window starts with list the fields before its own FROM and WHERE |
| JoinText.HitsExactly | libdbwindow/databasecanvas.cpp:146-159 | an equality is written exactly for the foreign-key fields that refer to a selected table |
| JoinText.RelationReads | libdbwindow/databasecanvas.cpp:161-190 | an equality split at its quotes has the referenced table and field on the left and the key's own on the right, exactly when no name holds a quote |
| JoinText.HitsInOrder | libdbwindow/databasecanvas.cpp:146-159 | the equalities stand in the order of the tables |
| JoinText.KeysHitsInOrder | libdbwindow/databasecanvas.cpp:146-159 | those of a table stand in the order of its keys |
| JoinText.WhereReadBack | libdbwindow/databasecanvas.cpp:161-190 | two WHERE clauses are equal exactly when their equalities are, in order |
| JoinText.ExtendedSet | libdbwindow/databasecanvas.cpp:122-124 | the selections afterwards are the old ones, in front, and the displayed names, none twice |
| JoinText.DisplayedOnce | libdbwindow/databasecanvas.cpp:93-118 | no table is displayed twice, those displayed stay in front, and every table given is displayed |
| JoinText.DisplayReads | libdbwindow/databasecanvas.cpp:120-196 | the text of a query's FROM and WHERE, split at the line breaks, tells the displayed tables and the equalities |
| JoinText.NewQuery | libdbwindow/databasecanvas.cpp:120-234 | the text made for a new query is one without fields whose rest begins with the line of FROM |
| JoinText.DatabaseCanvas.DisplayTables | libdbwindow/databasecanvas.cpp:93-236 | tables displayed, selections extended, FROM list, WHERE clause as the join of the relations appended, none when there are none, and the semicolon |
| JoinText.DatabaseCanvas.WriteRelations | libdbwindow/databasecanvas.cpp:146-232 | the nested loops with their two flags write the equalities by table, key and field |
| ArgumentRows.RowPlace | libdialogs/retrievalarguments.cpp:190-193 | behind the four placeholders row i's pointer, number, name and type are children 4(i+1) to 4(i+1)+3 of the sizer |
| ArgumentRows.LayoutInserted | libdialogs/retrievalarguments.cpp:217-220 | the four insertions give the layout of the list with the new row |
| ArgumentRows.LayoutDropped | libdialogs/retrievalarguments.cpp:237-241 | destroying a row's widgets gives the layout of the list without it |
| ArgumentRows.NextSound | libdialogs/retrievalarguments.cpp:178-355 | every event leaves rows with widgets of their own and a current line within the rows |
| ArgumentRows.InsertRemove | libdialogs/retrievalarguments.cpp:202-264 | deleting the row just inserted gives rows and current line back |
| ArgumentRows.AddRemove | libdialogs/retrievalarguments.cpp:178-264 | deleting the row just added gives the rows back and makes the last one current |
| ArgumentRows.RunOrder | libdialogs/retrievalarguments.cpp:178-355 | rows that last through a run never change their order |
| ArgumentRows.NameLine | libdialogs/retrievalarguments.cpp:301-317 | the control of a row is found in that row and no other |
| ArgumentRows.RetrievalArguments.constructor | libdialogs/retrievalarguments.cpp:34-117 | rows for the arguments with the last one current; numbered exactly when the positions are 1..n |
| ArgumentRows.RetrievalArguments.OnAddArgument | libdialogs/retrievalarguments.cpp:178-200 | a row at the end, current; layout and pointers stay in step, and so do labels 1..n |
| ArgumentRows.RetrievalArguments.OnInsertArgument | libdialogs/retrievalarguments.cpp:202-230 | a row at the current place, current; the rows behind it are numbered anew, so labels 1..n stay so |
| ArgumentRows.RetrievalArguments.OnRemoveArgument | libdialogs/retrievalarguments.cpp:232-264 | the current row goes, the next one or the new last one is current, and labels 1..n stay so |
| ArgumentRows.RetrievalArguments.FindLineNumberFromControl | libdialogs/retrievalarguments.cpp:301-317 | the first row whose name or type control it is, counted from one, or -1 |
| ArgumentRows.RetrievalArguments.SetIndicatorLine | libdialogs/retrievalarguments.cpp:331-342 | the given line is current and its pointer the only one shown |
| ArgumentRows.RetrievalArguments.OnSetFocus | libdialogs/retrievalarguments.cpp:344-355 | a control of a row makes its row current, any other changes nothing |
| ArgumentRows.RetrievalArguments.SetActiveLine | libdialogs/retrievalarguments.cpp:319-329 | a line in range becomes current through its name's focus, any other changes nothing |
| ArgumentRows.RetrievalArguments.OnKeyDown | libdialogs/retrievalarguments.cpp:272-286 | the up key makes the line before current, the down key the one behind, within the rows; otherwise nothing changes |
| ArgumentRows.RetrievalArguments.OnKillFocus | libdialogs/retrievalarguments.cpp:357-371 | focus passing from a button to a panel makes the first row current |
| ArgumentRows.RetrievalArguments.HandleAll | libdialogs/retrievalarguments.cpp:178-371 | after every run rows, sizer, pointers and current line are in step and are what the run of the specification gives, and rows first numbered 1..n are numbered 1..n |
| FieldStrip.PlacedMore | libfieldswindow/fieldwindow.cpp:50-57 | one more name is one more box at the next place, width plus five further on |
| FieldStrip.SideBySide | libfieldswindow/fieldwindow.cpp:50-57 | the first box is at column ten, and five free columns separate each box from the next |
| FieldStrip.Neighbours | libfieldswindow/fieldwindow.cpp:177-185 | right + 6 equals left exactly for a box and the one right behind it |
| FieldStrip.OneBoxAt | libfieldswindow/fieldwindow.cpp:136-147 | no column lies in two boxes |
| FieldStrip.HalfMeans | libfieldswindow/fieldwindow.cpp:177-190 | the right half are the columns nearer to the right edge, the left half those nearer to the left one by two columns at least |
| FieldStrip.DropBehind | libfieldswindow/fieldwindow.cpp:177-205 | a drop on the right half of another box puts the field right behind it, whichever branch is taken |
| FieldStrip.DropBehindAnywhere | libfieldswindow/fieldwindow.cpp:177-205 | on any strip, side by side or not, that drop does so exactly when the test for a drop in place does not take a box elsewhere for the next one |
| FieldStrip.BehindMoves | libfieldswindow/fieldwindow.cpp:192-195 | such a move is a permutation that moves only this field, to the place after the target |
| FieldStrip.DropAtEnd | libfieldswindow/fieldwindow.cpp:149-173 | with distinct names a drop on empty space, whichever branch is taken, is a permutation that moves only this field, to the end |
| FieldStrip.DropBefore | libfieldswindow/fieldwindow.cpp:188-197 | a drop on the left half puts the field right before the box exactly when it already is there and the mouse is not on the box's first column |
| FieldStrip.DropTooEarly | libfieldswindow/fieldwindow.cpp:188-197 | otherwise it lands one name too early, a permutation that moves only it, or outside the list when the box is the first of the others |
| FieldStrip.DropOnItself | libfieldswindow/fieldwindow.cpp:192-197 | a field dropped on its own box stays in place exactly on the left half and from the last place but one |
| FieldStrip.DropInMiddle | libfieldswindow/fieldwindow.cpp:188-192 | a drop on the exact middle loses the field |
| FieldStrip.FieldWindow.AddField | libfieldswindow/fieldwindow.cpp:50-57 | the boxes stay side by side exactly when the next place was that behind the last box |
| FieldStrip.FieldWindow.AddAll | libfieldswindow/fieldwindow.cpp:50-57 | adding names one at a time from a strip in order gives the boxes of the whole list |
| FieldStrip.FieldWindow.RemoveField | libfieldswindow/fieldwindow.cpp:59-74 | one rebuild gives the same boxes, next place and names |
| FieldStrip.FieldWindow.OnMouseMove | libfieldswindow/fieldwindow.cpp:121-134 | the first box under a dragging mouse is the one dragged |
| FieldStrip.FieldWindow.DropOnSpace | libfieldswindow/fieldwindow.cpp:149-173 | wherever the boxes stand, a field not named like the last one goes to the end and the boxes stand side by side, with the next place one box short; otherwise nothing changes |
| FieldStrip.FieldWindow.DropOnBox | libfieldswindow/fieldwindow.cpp:175-207 | the names after a drop on a box of any strip, and the boxes rebuilt side by side for them |
| FieldStrip.FieldWindow.OnLeftUp | libfieldswindow/fieldwindow.cpp:136-219 | the end of a drag; a drag that moves nothing stays on |
| IndexDialog.OneClause | libdialogs/createindex.cpp:499-511 | after any clicks the MySQL command has no ALGORITHM or no LOCK clause, and a choice made is always written |
| IndexDialog.OptionsReadBack | libdialogs/createindex.cpp:530-661 | for SQL Server the text behind the columns is the same exactly when all options are |
| IndexDialog.SuffixInjective | libdialogs/createindex.cpp:530-661 | options joined by bars are told apart by their text |
| IndexDialog.CommandsDiffer | libdialogs/createindex.cpp:443-663 | for fixed name, table and columns two SQL Server commands are equal exactly when the options are |
| IndexCommand.CommandSays | libdialogs/createindex.cpp:443-487 | the words in front of the columns: CREATE first, INDEX with the name, ON with the table, and each of the other words exactly for the setting it stands for |
| IndexCommand.CommandColumns | libdialogs/createindex.cpp:488-498 | the columns read from between the quotes of the command are those of the dialog, in order |
| IndexCommand.ClauseSays | libdialogs/createindex.cpp:499-511 | after any clicks the text behind the columns holds INPLACE, COPY, NONE, SHARED and EXCLUSIVE exactly for the choice of that name |
| IndexCommand.LastClick | libdialogs/createindex.cpp:709-749 | the last click on an enabled button is the choice of its group; the other group keeps its own |
| IndexCommand.OptionsSay | libdialogs/createindex.cpp:530-661 | the options read from the text behind the columns, split at the bars: each is there exactly when it is set |
| IndexCommand.DecimalValue | libdialogs/createindex.cpp:514-518 | the digits written for a number stand for it |
| IndexDialog.GinLosesCommand | libdialogs/createindex.cpp:512-525 | for PostgreSQL the command begins with the text that creates the index exactly when its type is not GIN |
| IndexCommand.PostgresSays | libdialogs/createindex.cpp:512-528 | for PostgreSQL a GIN index has only its fast update, ON or OFF, and tablespace; the others a fill factor, when they have a type, and tablespace |
| IndexDialog.Deselects | libdialogs/createindex.cpp:425-431 | deselecting takes out the columns of that name exactly when no other column's text holds the name and a blank |
| IndexDialog.DeselectsMore | libdialogs/createindex.cpp:428-429 | deselecting `id` from `id` and `user_id` leaves no field, where one column should stay |
| IndexDialog.OneDatabase | libdialogs/createindex.cpp:448-453 | the three database tests exclude each other, and each holds for its product's name, directly or through ODBC |
| IndexDialog.CreateIndex.ClickRadio | libdialogs/createindex.cpp:709-749 | a click on an enabled button sets the choice of its group and leaves the other; values and enabled buttons are those of the specification of clicks |
| IndexDialog.CreateIndex.OnPadIndex | libdialogs/createindex.cpp:751-761 | padding and fill factor are set together, nothing else changes |
| IndexDialog.CreateIndex.OnFillFactor | libdialogs/createindex.cpp:763-769 | padding is on exactly when the fill factor is not zero |
| IndexDialog.CreateIndex.OnFieldSelection | libdialogs/createindex.cpp:416-423 | the column with its order is appended to the fields and to the strip |
| IndexDialog.CreateIndex.OnFieldsDeselection | libdialogs/createindex.cpp:425-431 | the strip shows the fields that remain |
| IndexDialog.CreateIndex.Verify | libdialogs/createindex.cpp:399-414 | a name and a column are required |
| IndexDialog.CreateIndex.OnOkShowLog | libdialogs/createindex.cpp:433-441 | a command is generated exactly when verification succeeds |
| IndexDialog.CreateIndex.GenerateQuery | libdialogs/createindex.cpp:443-663 | the whole command for each kind of database |
| IndexDialog.CreateIndex.WriteServer | libdialogs/createindex.cpp:530-661 | the flag that chooses between WITH and the bar gives one WITH and single bars, or nothing without options |

## Left out

- DrawingDocument: the wizard that fills the sort lists, `DeleteGroupByTable`, which mixes the iterators of two vectors, `DeleteSortedTable`, and `ChangeSortOrder`, which works on copies.
- SelectText.RemoveHead: speaks of a text in the form the ADDs leave; a REMOVE leaves one blank more at the seam, and a further REMOVE on such a text can take a separator with it.
- GroupSortText.ClausesFollowLists: group fields are added before the first sort field; what happens otherwise is ClauseEffects.GroupOverSort and ClauseEffects.GroupBeforeSort.
- ClauseEffects.TextFollows: names without the words the handlers search for; the text after removing the last group field over a sort line is only shown not to follow.
- FieldLists.RunConserves: positions are within the lists; a position outside is undefined behaviour in the source. The drag handlers of the pages that compute positions are not part of this model.
- FieldLists.DrawingDocument.AddSortedField: the sort page lists labels and `AddRemoveField` stores bare names, so conservation and nesting fail for sort fields of a query edited in the tables (QueryEditing.SortTakeConserves); RunConserves and NestRestores speak of the group lists, where page and document hold the same names, and of sort lists of matching names, as the wizard fills them. `AddAllSortedFeld` has no caller.
- RecordVector.Vector: growth of capacity is some larger size; moves are copies, because the records declare a copy assignment only.
- QueryEditing.DrawingView: the strip of fields and the sort page that the handlers also tell, `DISTINCT`, the WHERE and HAVING pages, and `UpdateQueryFromSignChange`, whose lookup takes "not found" for found.
- WorkerSafety.DeleteMeetsLiveHandler: with temporary guards a call through the null handler is modelled as doing nothing.
- WorkerProtocol: `~MainFrame` runs after the wait of `OnClose`; windows stay open, so every document ever opened can still be used; the compilers for which a critical section of the frame is used are not part of the model.
- WorkerSafety.CallsNeverOverlap: speaks of the view's calls made under a guard; others, like the one of `OnForeignKey` (`libdbwindow/databaseview.cpp:759`), take none and are not part of the model.
- ArgumentRows.RetrievalArguments.OnInsertArgument: labels are numbers, not their decimal text.
- FieldStrip.FieldWindow.OnLeftUp: selection marks, scrolling and the event sent afterwards; `Clear`, which does not clear the names; a strip rebuilt by its owner in the middle of a drag, whose dragged box is then gone.
- JoinText.DatabaseCanvas.DisplayTables: shapes, connections, foreign-key actions and the marking of selected fields; a table counts as displayed when its name is among the displayed tables.
- IndexDialog.CreateIndex.GenerateQuery: the update handlers have run before OK is pressed; the NULLS radio buttons, which are not written to the command.
- Lines of the diagram (`ErdLineShape`): segments and bounding boxes are plain arithmetic over the points.
- Drivers, drawing, sizers as layout, menus, toolbars, configuration and dynamic libraries.
