# Reliable causal multicast chat: a Dafny model of one chat process

The chat has N processes. Each one multicasts the lines typed by its user to every process, including itself, over lossy UDP. Two layers make this work:

- **Reliable unicast.** Every data message gets a fresh message id and is recorded as unacknowledged. The receiver acknowledges every data packet, duplicates included, and filters duplicates by (sender, id). A periodic scan resends every record not yet acknowledged. A fault injector drops each outgoing packet when a random draw is at or below the drop rate.
- **Causal delivery.** Each process keeps a vector clock V. A received message carries the sender's timestamp T. It is held back until T[s] == V[s] + 1 for its sender s and T[i] <= V[i] for every other i (the Birman–Schiper–Stephenson rule). The release loop works in passes:
  - each pass tests every held entry against V as it was when the pass began;
  - V is advanced only after the pass, by one at the sender's index for each released entry;
  - the loop stops after a pass that releases nothing.

The model follows `ChatProcess` in chat_process/chat_process.py. It has four modules.

- `Chat` (chat_process.dfy): the class `ChatProcess`.
  - Its fields are the ones the source updates in place:
    - the clock, as an `array<nat>`;
    - the message id counter;
    - the received and acknowledged key sets;
    - the unacknowledged records;
    - the holdback queue.
  - `outbox` is an append-only log standing in for the send priority queue.
  - `delivered` is a log standing in for the `print` in `deliver`.
  - Each handler is a method that changes this state. Its `ensures` give the whole new state in terms of the specification functions below.
  - `Valid()` is the invariant every method keeps:
    - the clock has one entry per process;
    - every held entry fits the clock;
    - unacknowledged ids are strictly increasing and at most the counter.
- `Holdback` (holdback.dfy): the causal delivery rule as pure definitions, with the lemmas about them.
  - `Deliverable` is the release test.
  - `Partition` is one pass.
  - `Bump` is the clock after a pass.
  - `Settle` is the repetition of passes.
- `Unicast` (unicast.dfy): the reliable unicast layer as values.
  - `Packet` is an envelope and `Unacked` a retransmission record.
  - `Enqueue` and `Transmit` are the drop decision.
  - `Pending` is the scan's filter.
- `Seqs` (seqs.dfy): `SubsequenceOf`, which states that a filtered list keeps its order.

Inputs the source takes from outside become parameters:

- the random drop draw (`roll`; `rolls` for several sends, the i-th send using the i-th draw);
- the random delay (`delay`, `delays`);
- the decoded fields of a received packet;
- the input line.

## Model

| member | source | states |
|---|---|---|
| Chat.StripLast | chat_process/chat_process.py:145 | the line loses exactly its last character; an empty line stays empty |
| Chat.ChatProcess.constructor | chat_process/chat_process.py:16-31 | a new process has an all-zero clock of length N, counter 0, no received, acknowledged, unacknowledged or held entries, and the invariant holds |
| Chat.ChatProcess.UnicastSend | chat_process/chat_process.py:41-61 | a fresh data send raises the counter by exactly one, uses the new value as its id and records (dest, id, payload, timestamp) even if the packet is dropped; acks and resends keep the given id and add no record; the timestamp defaults to a copy of V; a draw at or below the drop rate enqueues nothing, otherwise exactly that packet |
| Chat.ChatProcess.ShouldRemove | chat_process/chat_process.py:87-94 | the loop over every index of T decides exactly `Deliverable` against the current clock |
| Chat.ChatProcess.SplitHoldback | chat_process/chat_process.py:84-98 | one pass yields exactly `Partition` of the queue against the clock at the start of the pass |
| Chat.ChatProcess.Deliver | chat_process/chat_process.py:114-116 | delivering appends (sender, message) to the delivery log |
| Chat.ChatProcess.ReleaseAll | chat_process/chat_process.py:100-102 | releasing entries in order bumps the clock to `Bump` and delivers them in queue order |
| Chat.ChatProcess.HoldbackPass | chat_process/chat_process.py:84-104 | one pass: the queue becomes the kept entries, the clock is bumped by the released ones after the test, which are delivered in order; the invariant is kept |
| Chat.ChatProcess.UpdateHoldbackQueue | chat_process/chat_process.py:81-107 | the loop ends in `Settle`'s queue, clock and delivery order; nothing left held is deliverable against the final clock; no clock index decreases |
| Chat.ChatProcess.UnicastReceive | chat_process/chat_process.py:63-79 | an ack only adds (sender, id) to the acknowledged set, returns false and enqueues nothing; every data packet, duplicates included, enqueues an ack to its sender with the same id and the pre-release clock (unless dropped); a duplicate returns false and changes nothing else; a new one is recorded as received, appended to the holdback queue, settled, and returns true; the counter and records never change |
| Chat.ChatProcess.Multicast | chat_process/chat_process.py:109-112 | N sends, one per process, all with the current clock: the counter rises by N, N records with consecutive ids are appended, and the send queue gets the surviving packets in process order |
| Chat.ChatProcess.UserInputLine | chat_process/chat_process.py:142-147 | V[my_id] rises by exactly one and every other index is unchanged, then the line minus its last character is multicast with that clock |
| Chat.ChatProcess.Retransmit | chat_process/chat_process.py:138 | a resend keeps the record's id, payload and timestamp and allocates no id |
| Chat.ChatProcess.ScanRecord | chat_process/chat_process.py:135-138 | one record of the scan: it is kept and resent with the next draw unless its (dest, id) is acknowledged |
| Chat.ChatProcess.AckHandlerScan | chat_process/chat_process.py:133-139 | the records become exactly `Pending` of the old ones; each survivor is resent in order with its original id, payload and timestamp; no id is allocated; the invariant (increasing ids) is kept |
| Holdback.Partition | chat_process/chat_process.py:84-98 | a pass splits the queue without loss in length; every kept entry fails the test and every released one passes it, against the clock at the start of the pass |
| Holdback.PartitionConserves | chat_process/chat_process.py:84-98 | the queue before a pass equals the kept plus the released entries as a multiset |
| Holdback.PartitionKeepsOrder | chat_process/chat_process.py:84-98 | kept and released entries each keep their queue order |
| Holdback.Bump | chat_process/chat_process.py:100-102 | after releasing r, each clock index has risen by exactly the number of released entries from that sender |
| Holdback.Settle | chat_process/chat_process.py:83-107 | the clock keeps its length through the repeated passes; the queue's length decreases with every pass that releases something, so the passes end |
| Holdback.SettleConserves | chat_process/chat_process.py:83-107 | the queue before the loop equals what stays held plus what was released, as a multiset |
| Holdback.SettleFixedPoint | chat_process/chat_process.py:83-107 | on exit no held entry is deliverable against the final clock |
| Holdback.SettleClock | chat_process/chat_process.py:100-102 | each clock index ends at its start value plus the number of released entries from that sender, so none decreases |
| Holdback.SettleKeepsOrder | chat_process/chat_process.py:84-104 | what stays held keeps its relative queue order |
| Holdback.SettleCoversReleased | chat_process/chat_process.py:86-102 | after the loop the clock is at least every released entry's timestamp at every index |
| Holdback.OwnCopyStaysHeld | chat_process/chat_process.py:86-107 | an entry from the process itself whose own index is at most V's is never released and never advances V's own index |
| Holdback.PartitionBySide | chat_process/chat_process.py:86-98 | every queued entry is held by a pass exactly when it fails the test against the pass-start clock and released exactly when it passes it |
| Holdback.ScenarioSuccessorHeld | chat_process/chat_process.py:86-107 | at process 2 with clock [0, 0, 0], process 1's message stamped [1, 1, 0] arriving alone stays held and the clock does not move |
| Holdback.ScenarioFirstPass | chat_process/chat_process.py:86-102 | a first pass releases only the predecessor and bumps the clock to [1, 0, 0] |
| Holdback.ScenarioSecondPartition | chat_process/chat_process.py:86-102 | with the predecessor delivered, the next pass releases the successor |
| Holdback.ScenarioSecondPass | chat_process/chat_process.py:83-107 | from there the loop ends with an empty queue and clock [1, 1, 0] |
| Holdback.ScenarioChainReleased | chat_process/chat_process.py:83-107 | the predecessor arriving behind the held successor releases both in causal order in one call |
| Holdback.ScenarioOwnCopyOvertaken | chat_process/chat_process.py:86-107 | at process 0 with clock [1, 0], holding its own copy stamped [1, 0], process 1's message stamped [1, 1] is released while the own copy, its causal predecessor, stays held; the clock becomes [1, 1] |
| Unicast.Transmit | chat_process/chat_process.py:53-61 | sending packets one after another enqueues at most as many as were sent |
| Unicast.TransmitKeepsOrder | chat_process/chat_process.py:53-61 | what is enqueued is a subsequence of what was sent: dropping never reorders |
| Unicast.TransmitAllDropped | chat_process/chat_process.py:53-54 | with a drop rate of 1 or more and draws in [0, 1), nothing is enqueued |
| Unicast.TransmitNoneDropped | chat_process/chat_process.py:53-61 | when every draw is above the drop rate, every packet is enqueued in send order |
| Unicast.Pending | chat_process/chat_process.py:134-139 | the scan keeps at most as many records as there were |
| Unicast.PendingMembers | chat_process/chat_process.py:135-137 | a record survives the scan exactly when it was there and its (dest, id) is not acknowledged |
| Unicast.PendingKeepsOrder | chat_process/chat_process.py:134-139 | survivors keep their original order |
| Unicast.PendingStaysOrdered | chat_process/chat_process.py:133-139 | the scan keeps ids strictly increasing and under the same bounds |
| Unicast.OrderedSnoc | chat_process/chat_process.py:47-51 | appending a record with the next id keeps ids strictly increasing |

## Left out

- Sockets are not modelled. This covers `init_socket`, `recvfrom` and `sendto`, and the swallowing of timeout and `BlockingIOError` in `incoming_message_handler` (chat_process/chat_process.py:152-155). They are I/O. `UnicastReceive` takes the already decoded fields.
- `pack_message`, `unpack_message` and the timestamp stringify/parse codec are not modelled. They live in helpers/unicast_helper, and helpers/unicast_helper is not part of this model. Sender and message id are taken as natural numbers.
- The `config.config['hosts']` address lookup is left out, because it is external configuration. `Multicast` assumes the host list has exactly N entries and sends to processes 0 to N-1.
- Chat.ChatProcess.UnicastSend: requires the destination to be below N. For any other destination the source's hosts lookup fails unless the packet is dropped; a dropped fresh data send to such a destination still allocates an id and leaves a record for a process that does not exist, while a dropped ack or resend to it changes nothing at all. The model excludes both cases.
- Chat.ChatProcess.UnicastReceive: requires a data packet's sender to be below N. For any other sender the source's hosts lookup fails when the ack is sent, unless the ack is dropped; then the message is recorded as received and held for a process that does not exist, where it stays held or makes the clock increment raise an index error once released, which the model excludes. It also requires a new message's timestamp to have at most N entries. The source would raise an index error in the release test there.
- Holdback.Deliverable is total: an entry whose timestamp is longer than the clock is simply not deliverable. On every state the methods accept, it agrees with the source's test, which would raise an index error on such an entry.
- Randomness is not modelled; draws and delays are parameters.
  - Chat.ChatProcess.UnicastSend: the delay is not constrained to `uniform(0, 2 * delay_time)`, and the absolute send time `time() + delay` is not modelled. The packet records the delay itself.
  - The source draws the delay only for packets it does not drop. In the model, each send is handed a delay either way, and a dropped packet ignores it.
- `message_queue_handler` (chat_process/chat_process.py:118-126) is left out. It is a clock- and sleep-driven drain of the priority queue into `sendto`. The queue is modelled only as the append-only `outbox`. Its ordering by send time and its draining are not modelled.
- Concurrency is not modelled. This covers the threads, `run`, the mutex, and the `while True` / `sleep` loop shells of `ack_handler`, `incoming_message_handler` and `user_input_handler`. Each handler body is one sequential step: `UnicastReceive`, `AckHandlerScan` and `UserInputLine`.
- `deliver`'s `print` becomes an append to the `delivered` log.
- `message_max_size` (the receive buffer size) is left out; it belongs to the socket read.
- chat_process/main.py is not part of this model. It is an earlier, superseded version of the same process.

Behaviours of the source that the model reproduces rather than corrects:

- **Own multicast copies stay held.** `UserInputLine` raises V[my_id] before the copies are stamped. So the copy a process sends to itself arrives with T[my_id] == V[my_id]. It can never pass the release test and stays held forever (`Holdback.OwnCopyStaysHeld`). Messages from other processes that causally follow it are still released, so they are delivered while their predecessor never is (`Holdback.ScenarioOwnCopyOvertaken`).
- **The last character is always cut.** The input line loses its last character whether or not it is a newline (`Chat.StripLast`).
