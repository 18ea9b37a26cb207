# The socket exchange, modelled and proved

A Dafny model of a TCP trading exchange: one single-threaded server, traders that send orders, and
market-data clients that follow the trades. The model covers everything between the bytes a client sends and the
bytes it gets back: line framing, parsing, sessions, the order book, execution reports, broadcasts, and
output queues with partial sends. What is proved holds for every run: any clients, any arrival of bytes, any
closing and reuse of descriptors, any behaviour of `send`.

## How it is built

Two layers, tied together by contracts.

* **Values.** `Matching`, `Books`, `Markets`, `Channels` and `Exchange` say on values what each operation does:
  `Exchange.Run(steps)` is the state of the server after any list of events. The laws are proved here.
* **The program's own form.** `OrderBooks.OrderBook`, `Framing.LineBuffer`, `Servers.ClientSession` and
  `Servers.Server` are classes with the program's fields, loops and early returns. Each method's `ensures` equates
  its effect with the function on values; `Server.Valid()` says that the fields are those of `Run(steps)`, so every
  law of runs is a law of the class.

| file | content |
|---|---|
| `Protocol.dfy` | number parsing and printing, tokens, messages |
| `Framing.dfy` | `LineBuffer`, and what cutting a stream into lines means |
| `Matching.dfy` | one incoming order against the queue opposite it |
| `Books.dfy` | submit, cancel, filter, as functions on the book; the book invariant |
| `OrderBook.dfy` | the nested maps and the loops of the program |
| `Market.dfy` | the book with its history: conservation, attribution, time priority |
| `Priority.dfy` | nobody overtakes, over whole runs |
| `MarketTotals.dfy` | traded volume, independence of arrival order, the bound on executions |
| `Levels.dfy` | the book as independent one-sided queues |
| `Channel.dfy` | one client's output: partial sends, queueing, draining |
| `Exchange.dfy` | the server as a state machine |
| `Sessions.dfy`, `Safety.dfy` | the server invariant and its proof for every step |
| `Evolution.dfy` | what never goes back |
| `Inputs.dfy` | from the bytes a socket gives to the lines acted on, over whole runs |
| `Lifetimes.dfy` | when a session begins and when it ends |
| `Replies.dfy` | one reply for every line, over whole runs |
| `Server.dfy` | the handlers, in place |
| `Consequences.dfy`, `Answers.dfy`, `Guarantees.dfy` | what clients can rely on |
| `Shortfalls.dfy` | runs in which the server does less than it says, and exactly when |

## What is taken from outside

* Every `send` on a socket is answered from a script: it takes at least one and at most all offered bytes, is
  interrupted, would block, or fails. A session's script is arbitrary; once used up, each further `send` would block.
  As scripts are finite, a loop that retries on EINTR ends.
* Every `recv` result is an argument of the read event, and every `accept` result one of the accept event.
* The kernel never hands out a descriptor that is still open. It may reuse a closed one at once.
* Where a theorem says `Sticky`, the kernel has taken no bytes of a socket after giving it a hard error. Without that
  a stream that lost part of a line can be torn (`Shortfalls.StreamsCanBeTorn`), because `enqueue` drops the rest of the
  line and keeps the connection; `Guarantees.StreamsAreWhole` has the exact condition on the kernel's answers.
* Characters are Dafny characters; the program's bytes are those below 256.
* Integers are unbounded. The limit 2147483647 is modelled where the program checks it; `std::from_chars` fails
  above the 64-bit range.
* `unordered_map`s, and the price maps in `cancel` and `remove_orders_of`, are visited in an arbitrary order.

## Where the program does less than it says

* The protocol table (README.md:150) gives order ids the range 0..2147483647, but `next_id` is not bounded
  (src/server/order_book.cpp:4-6) while CANCEL reads nothing larger (src/common/protocol.cpp:32). So there is a run that
  ends with a connected owner's resting order that no CANCEL line takes out: the order with id 2147483648
  (`Shortfalls.FirstIdBeyondCancel`). In every run exactly the larger ids are concerned (`Shortfalls.StuckExactlyAbove`).
* A line met by a hard error in `enqueue` is lost without the session being closed
  (src/server/exchange_server.cpp:59). So there is a run in which a connected client reads a line that was never
  meant for it (`Shortfalls.StreamsCanBeTorn`). A connected session's bytes are its messages if and only if no `send`
  has met a hard error (`Guarantees.StreamsAreWhole`).

## Model

| member | source | states |
|---|---|---|
| Protocol.ParseNonnegativeInt | src/common/protocol.cpp:16-36 | accepts exactly the non-empty strings of the digits 0 to 9 of value at most 2147483647, and what the out-parameter holds in every failure case |
| Protocol.ParsePositiveInt | src/common/protocol.cpp:38-41 | the same from 1 on, out-parameter included: refused, it holds the number read if that fits 64 bits |
| Protocol.PrintThenParse | src/common/protocol.cpp:16-58 | printing any number and parsing it gives the number back; both parsers accept every value in range |
| Protocol.LeadingZeros | src/common/protocol.cpp:16-36 | leading zeros, however many, do not change the value |
| Protocol.DecimalNotation | src/common/protocol.cpp:16-36 | digits in front of others count by the power of ten of how many those are |
| Protocol.TheDigits | src/common/protocol.cpp:16-36 | the ten digits and their values |
| Protocol.Tokenize | src/common/protocol.cpp:43-49 | the loop extracts exactly the maximal runs of non-space characters, in order |
| Protocol.TokensOfSpaced | src/common/protocol.cpp:43-49 | however words are spaced (by spaces, tabs and the other white space, before, between and after), tokenizing gives the words |
| Protocol.TokensOfJoin | src/common/protocol.cpp:43-49 | tokenizing words joined by single spaces gives the words back |
| Protocol.IsValidInstrument | src/common/protocol.cpp:7-14 | true exactly for JNST and IMCT |
| Protocol.ReportRoundTrip | src/common/protocol.cpp:56-58 | the text of BOUGHT, SOLD and TRADE tokenizes and parses back to instrument, quantity and price |
| Protocol.AnswerRoundTrip | src/common/protocol.cpp:54-55 | the text of ORDER_ACCEPTED and ORDER_CANCELLED tokenizes and parses back to the order id |
| Protocol.ErrorRoundTrip | src/common/protocol.cpp:51-53 | an error reads as the word ERROR and the words of its reason, and OK as OK |
| Framing.LineBuffer.Feed | src/common/net_utils.cpp:118-120 | appends the bytes |
| Framing.LineBuffer.NextLine | src/common/net_utils.cpp:122-130 | takes the first complete line off, without its newline and one carriage return, or changes nothing when there is none |
| Framing.LinesSplit | src/common/net_utils.cpp:118-130 | draining before more bytes arrive gives the lines, and leaves the rest, of the joined bytes |
| Framing.ReceiveIgnoresChunks | src/common/net_utils.cpp:118-130 | a receiver that drains after each chunk sees the lines of the whole stream, however it is cut |
| Framing.LinesAreTheCut | src/common/net_utils.cpp:118-130 | the lines are the one way to cut a stream at its newlines |
| Framing.LineEnds | src/common/net_utils.cpp:122-130 | one carriage return before the newline is not part of the line; no second one, and no other character, is dropped |
| Framing.LinesOfFrame | src/server/exchange_server.cpp:40-42 | unframing inverts framing for one-line texts |
| Framing.LinesOfPrefix | src/server/exchange_server.cpp:40-69 | from any prefix of the framed stream a receiver sees a prefix of the messages |
| Matching.ExecsClosedForm | src/server/order_book.cpp:26-51 | the i-th fill is with the i-th oldest order, for the smaller of its quantity and what the older ones left wanting; no order is reached in vain |
| Matching.RestClosedForm | src/server/order_book.cpp:26-62 | total filled is the smaller of order and level; the queue keeps its youngest orders, only its front reduced |
| Matching.MatchParties | src/server/order_book.cpp:32-44 | each fill is between the order and one of the queue, positive, and within what both offer |
| Matching.MatchConservesResting | src/server/order_book.cpp:46-50 | a resting order loses exactly what its fills took |
| Matching.MatchConservesIncoming | src/server/order_book.cpp:46-62 | the incoming order loses exactly what its fills took |
| Matching.MatchExhausts | src/server/order_book.cpp:26-62 | every fill uses up one of its two orders |
| Books.SubmitKeepsInv | src/server/order_book.cpp:8-65 | a book stays one: no empty level, every order filed under its own key with something left, queues in id order, ids distinct, never both sides at one price |
| Books.CancelKeepsInv | src/server/order_book.cpp:67-88 | so does a cancelled book |
| Books.CancelIsDeletion | src/server/order_book.cpp:67-88 | a successful cancel removes exactly that order; a failed one removes nothing |
| Books.DeleteByLevel | src/server/order_book.cpp:80-82 | deletion by id is one cut in one queue, and the level goes when it was the last |
| Books.CancelUndoesSubmit | src/server/order_book.cpp:8-88 | an order that met no counterparty can be withdrawn without a trace |
| Books.SubmitIgnoresElsewhere | src/server/order_book.cpp:15-62 | what a submission does at its level does not depend on submissions at other levels |
| Books.SubmitsCommute | src/server/order_book.cpp:15-62 | orders at different levels commute: same fills, same book |
| Books.SubmitAndCancelCommute | src/server/order_book.cpp:8-88 | so do an order and a cancel at different levels: same answer, same fills, same book |
| Books.CancelsCommute | src/server/order_book.cpp:67-88 | cancels of two orders commute, also at one level and whoever sends them |
| Books.PurgeIsFilter | src/server/order_book.cpp:90-114 | removing a descriptor's orders keeps all others, and the book a book |
| Books.PurgeTwice | src/server/order_book.cpp:90-114 | a second removal finds nothing |
| OrderBooks.OrderBook.constructor | src/server/order_book.hpp:45-51 | an empty book that counts ids from 0 |
| OrderBooks.OrderBook.NextId | src/server/order_book.cpp:4-6 | returns the counter and advances it |
| OrderBooks.OrderBook.Consume | src/server/order_book.cpp:26-51 | the matching loop terminates and computes the match of the order against the level, fills in order |
| OrderBooks.OrderBook.Submit | src/server/order_book.cpp:8-65 | the nested maps afterwards are those of `Books.Submit`; the fills are its executions; the invariant is kept |
| OrderBooks.OrderBook.Cancel | src/server/order_book.cpp:67-88 | the scan succeeds exactly when the order rests and descriptor and serial match, whatever the iteration order, and then deletes it |
| OrderBooks.OrderBook.RemoveOrdersOf | src/server/order_book.cpp:90-114 | the erasing loops equal a filter of the book; the returned ids are those that vanished, each once |
| Markets.RunKeepsInv | src/server/order_book.cpp:8-88 | over every run: per-order conservation, every execution between two earlier orders of opposite sides with their owners, every cancellation of what was left of an earlier order, ids used once, time priority, never crossed |
| Markets.NextIdIsFresh | src/server/exchange_server.cpp:144-156 | the id taken just before `submit` is larger than every resting id |
| Markets.EarlierOrdersStay | src/server/order_book.cpp:4-6 | no id is ever given to a second order |
| Priorities.NobodyOvertakes | src/server/order_book.cpp:24-62 | in every run, while an order rests no later order of its side, instrument and price has traded anything, also none that is gone |
| MarketTotals.RunBalances | src/server/order_book.cpp:20-82 | in every run each side of each level balances: asked = traded + resting + withdrawn, with one and the same traded volume for both sides |
| MarketTotals.TradedVolume | src/server/order_book.cpp:20-82 | in every run each level trades the smaller of what both sides asked for, withdrawn remainders not counted, and is left with the difference |
| MarketTotals.ArrivalOrderDoesNotMatter | src/server/order_book.cpp:20-62 | without cancels, volume and resting totals depend only on which orders came, not on when |
| MarketTotals.ExecutionsAreBounded | src/server/order_book.cpp:26-82 | executions, resting orders and cancellations together never outnumber the orders submitted |
| Levels.EveryLevelRunsAlone | src/server/order_book.cpp:8-88 | each level of a run has the queue and the executions of its own run as a one-sided queue |
| Levels.LevelsDetermineBook | src/server/order_book.hpp:47-51 | the two-sided book is determined by these queues |
| Channels.EnqueueKeepsArmed | src/server/exchange_server.cpp:40-69 | after `enqueue` the write event is armed exactly if something is queued, no queued chunk is empty, and what was taken is only added to |
| Channels.EnqueueStream | src/server/exchange_server.cpp:40-69 | the whole framed line joins the stream, or a hard error cuts it short |
| Channels.EnqueueCarries | src/server/exchange_server.cpp:40-69 | the stream stays that of the framed lines, for any answers of the kernel; lines were lost exactly if a hard error was among them |
| Channels.PushTakesWhatIsGranted | src/server/exchange_server.cpp:52-60 | the send loop sends all that the answers of the kernel grant, and stops before the line is gone only where the kernel is full or fails |
| Channels.EnqueueOffers | src/server/exchange_server.cpp:44-68 | a line that finds nothing queued is offered to the kernel at once and queued only as far as it is not taken; one that does waits behind |
| Channels.DrainKeeps | src/server/exchange_server.cpp:323-352 | a drain moves bytes from the queue to the kernel, changes nothing in the stream, and disarms only when empty |
| Channels.DrainStops | src/server/exchange_server.cpp:328-351 | a surviving drain goes on until the queue is empty, the kernel is full or without an answer, or a send took only the beginning of a chunk; the queue afterwards is what was not sent |
| Channels.DrainEmpties | src/server/exchange_server.cpp:328-351 | a kernel that takes each chunk it is offered gets the whole queue in one drain, which disarms |
| Channels.DrainDiesOnFailure | src/server/exchange_server.cpp:328-345 | the connection ends exactly if the drain meets a hard error; a zero-length send never ends it |
| Channels.DrainLosesNothing | src/server/exchange_server.cpp:323-352 | a drain loses no line: after one that survives, lines are missing exactly if an earlier send met a hard error |
| Channels.TransientErrorTearsTheStream | src/server/exchange_server.cpp:53-60 | a concrete case: an error that passes, in the middle of a line, garbles what the client reads |
| Exchange.HandleLineKeepsKeys | src/server/exchange_server.cpp:83-217 | a line ends at most its own session, and only when it is QUIT |
| Exchange.ArriveTwice | src/server/exchange_server.cpp:283-297 | two arrivals leave the whole server as one arrival of the joined bytes does, QUIT included |
| Exchange.ChunksDoNotMatter | src/server/exchange_server.cpp:280-297 | bytes read back to back in one readable event leave the same server however they are cut (runs in general: `Guarantees.LinesAreActedOn`) |
| Sessions.AfterIsWellTold | src/server/exchange_server.cpp:156-166 | an execution is told to a session exactly as the history demands |
| Sessions.OwnOrderKeepsGood | src/server/exchange_server.cpp:143-156 | a new order is acknowledged before anything else is said about it |
| Sessions.SelfTradeIsToldTwice | src/server/exchange_server.cpp:156-163 | who trades with itself is told BOUGHT and then SOLD |
| Safety.HandleLineKeepsInv | src/server/exchange_server.cpp:83-217 | every command, well-formed or not, keeps the server invariant |
| Safety.AcceptKeepsSafe | src/server/exchange_server.cpp:242-272 | a new session under a free descriptor, with a serial number never used before, keeps it |
| Safety.WritableKeepsSafe | src/server/exchange_server.cpp:323-352 | so does draining, and closing on a hard error |
| Safety.RunIsSafe | src/server/exchange_server.cpp:83-352 | every reachable state satisfies the server invariant, and no input buffer holds a complete line |
| Evolution.RunEvolves | src/server/exchange_server.cpp:83-352 | between any two points of a run: roles and names stay, histories and sent bytes only grow, ended sessions stay as they were |
| Consequences.MarketIsARun | src/server/exchange_server.cpp:143-180 | the server's market is always that of a run of placements and cancels, so the laws of those runs apply |
| Consequences.OwnedByTheSession | src/server/order_book.cpp:77-78 | matching descriptor and serial number is the same as being the session that placed the order |
| Answers.LoginAnswer | src/server/exchange_server.cpp:99-122 | LOGIN with one argument, however spaced, succeeds exactly if the sender is no market-data client and has no name, and no other connected session has the name asked for; otherwise it is refused with the reason the program gives; nobody else is touched |
| Answers.SubscriptionAnswer | src/server/exchange_server.cpp:103-205 | the words SUBSCRIBE and UNSUBSCRIBE with one argument, however spaced, add and remove it exactly for JNST and IMCT and non-traders, any number of times; otherwise they are refused with the reason the program gives; nobody else is touched |
| Answers.MalformedIsRefused | src/server/exchange_server.cpp:84-130 | empty lines, unknown commands and wrong numbers of words get one error, with the reason the program gives; market, name, subscriptions and all other sessions stay as they were |
| Answers.QuitEndsTheSession | src/server/exchange_server.cpp:207-211 | QUIT, with anything behind it, ends its sender's session without a reply and touches no order and no other session |
| Answers.RoleIsSettled | src/server/exchange_server.cpp:88-106 | the first LOGIN, BUY, SELL or CANCEL makes a trader for good, the first SUBSCRIBE or UNSUBSCRIBE a market-data client, also when the command itself is refused; no other line does |
| Inputs.TakenIsOffered | src/server/exchange_server.cpp:280-308 | a readable event takes all that `recv` returns until it would block, as long as the session is there |
| Inputs.RunTracks | src/server/exchange_server.cpp:274-320 | for every session of every run, lines acted on and bytes buffered are those of all bytes its socket gave |
| Inputs.ReadInParts | src/server/exchange_server.cpp:280-320 | reading that is interrupted and taken up by a later event leaves what reading on would have left |
| Inputs.EveryLineMeetsARun | src/server/exchange_server.cpp:283-294 | every line, wherever in an event it arrives, is acted on in a state that some run ends in, so what is stated of lines after any run holds of every line |
| Lifetimes.PeerGoneCloses | src/server/exchange_server.cpp:299-318 | when the peer closes or resets the connection the session is closed, after all that was read before |
| Lifetimes.ReadingEnds | src/server/exchange_server.cpp:280-319 | a readable event ends its session if and only if the peer is gone or a line read is QUIT |
| Lifetimes.WritingEnds | src/server/exchange_server.cpp:323-352 | a writable event ends its session if and only if a send meets a hard error; it leaves orders and other sessions alone |
| Lifetimes.HangupCloses | src/server/exchange_server.cpp:219-238 | closing removes that session only; its orders stay in the market |
| Guarantees.LinesAreActedOn | src/server/exchange_server.cpp:274-320 | whatever the cuts, interruptions, later events and other clients in between: the lines acted on for a session are the lines of all its bytes, each once, in order, up to a QUIT; the rest waits in its buffer |
| Replies.LineIsAnswered | src/server/exchange_server.cpp:83-217 | a line other than QUIT gets exactly one OK, ERROR, ORDER_ACCEPTED or ORDER_CANCELLED, and no other session gets any for it |
| Guarantees.LinesAreAnswered | src/server/exchange_server.cpp:83-217 | in every run the replies of a session are as many as the lines acted on for it, QUIT alone without one |
| Guarantees.SessionsAreTellable | src/server/client_session.hpp:10-24 | serial numbers are never shared, connected names are distinct, usernames mean trader, subscriptions mean market data |
| Guarantees.SessionsStartAfresh | src/server/exchange_server.cpp:261-264 | a new connection is a session without role, name, subscriptions and messages, with a serial number above every earlier one; nobody else is touched |
| Guarantees.SessionsEndExactly | src/server/exchange_server.cpp:207-406 | in every run a session ends if and only if it sends QUIT, its peer is gone, a drain of it meets a hard error, or the kernel reports its end |
| Guarantees.RolesAreForLife | src/server/exchange_server.cpp:92-106 | a session keeps its role and name to its end, and its messages and sent bytes are only added to |
| Guarantees.OrdersAreConserved | src/server/order_book.cpp:26-82 | for every order of every run: asked = traded + resting + withdrawn, and it rests exactly while something does |
| Guarantees.TimeHasPriority | src/server/order_book.cpp:24-62 | the same for the server: while an order rests no later one of its kind has traded; whoever is not at the front of a queue still has all it asked for |
| Guarantees.OrdersHaveOwners | src/server/exchange_server.cpp:219-235 | every order, also after a disconnect, belongs to a session of the run that was a trader and was told its id |
| Guarantees.OrdersAreEnteredAsAsked | src/server/exchange_server.cpp:124-156 | a four-word BUY or SELL line, however spaced, is accepted exactly for JNST or IMCT and numbers in 1..2147483647, enters the order asked for under the next id, and is answered by ORDER_ACCEPTED first; otherwise its sender gets an error with the reason the program gives, and market, name, subscriptions and all other sessions stay as they were |
| Guarantees.ReportsReachOnlyTheOwner | src/server/exchange_server.cpp:154-163 | BOUGHT and SOLD reach only the very session that placed the order, after its ORDER_ACCEPTED, for an execution that took place, even when the descriptor has been reused |
| Guarantees.ReportsAreComplete | src/server/exchange_server.cpp:143-182 | ORDER_ACCEPTED, BOUGHT, SOLD and ORDER_CANCELLED of a session, as one sequence, are exactly those due to it while connected; of a connected one all that the whole history holds for it, in its order |
| Guarantees.BroadcastsAreExact | src/server/exchange_server.cpp:71-81 | TRADE messages are exactly the executions in subscribed instruments while subscribed; traders get none and market-data sessions nothing else |
| Guarantees.CancelIsForTheOwner | src/server/exchange_server.cpp:168-185 | CANCEL with one argument, whatever it is and however spaced, succeeds exactly if it is a number up to 2147483647 and the id of a resting order this session placed; then that order is gone and no other, else its sender gets an error with the reason the program gives and the market stays; no other session is touched either way |
| Guarantees.CancellationsAreTold | src/server/exchange_server.cpp:180-185 | ORDER_CANCELLED is told only for a withdrawn order and only to the session that placed it; every withdrawal of the run was told |
| Guarantees.ClientsSeeTheirMessages | src/server/exchange_server.cpp:40-69 | the client's line buffer yields the session's messages in order from the first on, whatever the partial sends and however the bytes are cut; all of them when nothing is queued and no send met a hard error |
| Guarantees.StreamsAreWhole | src/server/exchange_server.cpp:53-68 | for any kernel, a connected session's taken and queued bytes are its framed messages if and only if no send has met a hard error; an ended one's also when the drain met it last |
| Guarantees.WritableSocketsAreServed | src/server/exchange_server.cpp:323-352 | in every run a writable event sends on until the queue is empty or the kernel stops it, and a kernel with room gets everything queued in that one event |
| Guarantees.NoWakeupIsLost | src/server/exchange_server.cpp:62-68 | armed for writing exactly while something is queued, and never an empty chunk |
| Guarantees.ExecutionsCanBeRead | src/common/protocol.cpp:56-58 | a client recovers instrument, quantity and price from every execution message it gets |
| Guarantees.MessagesCanBeRead | src/common/protocol.cpp:51-58 | every message of every session reads as what it says: OK; ERROR and the reason; ORDER_ACCEPTED or ORDER_CANCELLED and that id; BOUGHT, SOLD or TRADE and that fill |
| Shortfalls.StuckExactlyAbove | src/common/protocol.cpp:32-34 | in every run, an owner's resting order is beyond every CANCEL line if and only if its id is above 2147483647 |
| Shortfalls.EveryIdIsGivenOut | src/server/order_book.cpp:4-6 | for every natural number there is a run after which the order with that id rests and its owner is connected |
| Shortfalls.FirstIdBeyondCancel | src/server/exchange_server.cpp:176-185 | there is a run that ends with order 2147483648 resting and no CANCEL line of its connected owner able to take it out |
| Shortfalls.StreamsCanBeTorn | src/server/exchange_server.cpp:53-60 | there is a run in which a connected client reads a line that is none of its messages, after one send that failed |
| Servers.ClientSession.SendLoop | src/server/exchange_server.cpp:52-60 | the fast path offers the line until it is gone, the kernel is full or the peer is |
| Servers.ClientSession.Enqueue | src/server/exchange_server.cpp:40-69 | the session afterwards is that of `Exchange.Post`: bytes taken, queue, arming, and nothing else changed |
| Servers.ClientSession.Flush | src/server/exchange_server.cpp:328-351 | the drain loop computes `Channels.Drain` |
| Servers.Server.BroadcastTrade | src/server/exchange_server.cpp:71-81 | the loop over sessions, in any order, tells exactly the subscribers |
| Servers.Server.SendReport | src/server/exchange_server.cpp:157-163 | a report is sent exactly if the descriptor holds the session with that serial number |
| Servers.Server.DeliverFills | src/server/exchange_server.cpp:156-166 | the fills are told one after the other: buyer, seller, subscribers |
| Servers.Server.PlaceOrder | src/server/exchange_server.cpp:143-166 | takes the id, acknowledges, submits, reports: the server afterwards is that of `Exchange.PlaceOrder` |
| Servers.Server.NameInUse | src/server/exchange_server.cpp:115-120 | finds whether another connected session has that name |
| Servers.Server.Login | src/server/exchange_server.cpp:109-122 | is `Exchange.Login` on the whole server |
| Servers.Server.BuyOrSell | src/server/exchange_server.cpp:124-166 | is `Exchange.BuyOrSell`: each argument error in its place |
| Servers.Server.CancelCmd | src/server/exchange_server.cpp:168-185 | is `Exchange.CancelCmd` |
| Servers.Server.Subscription | src/server/exchange_server.cpp:187-205 | is `Exchange.Subscription` |
| Servers.Server.CloseSession | src/server/exchange_server.cpp:225-238 | removes the session and leaves the book alone; closing an unknown descriptor does nothing |
| Servers.Server.HandleLine | src/server/exchange_server.cpp:83-217 | is `Exchange.HandleLine` on the whole server, and false exactly for QUIT |
| Servers.Server.TakeBytes | src/server/exchange_server.cpp:283-294 | one chunk is fed and its lines handled until QUIT, if any: `Exchange.Arrive` |
| Servers.Server.OnReadable | src/server/exchange_server.cpp:274-320 | the read loop is one read step of the run |
| Servers.Server.OnWritable | src/server/exchange_server.cpp:323-352 | the drain is one write step of the run |
| Servers.Server.OnHangup | src/server/exchange_server.cpp:391-406 | an error or end-of-file event is one hangup step of the run |
| Servers.ConnectionsOf | src/server/exchange_server.cpp:243-255 | connections are taken in one after the other up to the first final error |
| Servers.OneConnection | src/server/exchange_server.cpp:247-255 | a connection is one accept step; an aborted or interrupted accept is none and does not end the accepting |
| Servers.Server.AcceptNew | src/server/exchange_server.cpp:242-272 | the accept loop takes in every connection up to the first final error, each of them a session afterwards, as accept steps of the run |

## Left out

- OrderBooks.OrderBook.Submit: asks that the id be larger than every resting id, which the program leaves to its caller; `Markets.NextIdIsFresh` shows that the server's caller does so.
- OrderBooks.OrderBook.RemoveOrdersOf: says which ids are returned and that each is returned once, not their order, which depends on the hash map; the program never calls it on disconnect.
- Servers.Server.AcceptNew: asks for descriptors that are not in use, as the kernel gives them.
- Guarantees.ClientsSeeTheirMessages: promises a prefix only, because closing discards what is queued; and asks for a kernel that took nothing after a hard error, since otherwise it is false (`Shortfalls.StreamsCanBeTorn`).
- Exchange.ChunksDoNotMatter: compares two ways of cutting the bytes of one readable event; what is independent of the cuts in a whole run is `Guarantees.LinesAreActedOn`.
- The kqueue registrations, socket options, `bind`, `listen`, `fcntl`: only whether writing is armed is kept.
- The event loop of `main`: events are single steps on live descriptors; nothing is said about a stale event for a descriptor closed and reused within one batch.
- The traders' and market-data clients' own programs, except that they read through `LineBuffer`.
- `send_all` and `send_line`, the clients' blocking sends: the server's two send loops are the harder case.
- Logging, the connection generator, the experiment scripts and the tests.
- Wrap-around of the id counter and of the serial numbers, both 64 bits wide.
