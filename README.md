# Telegram update ingestion, modelled in Dafny

This project models the server-side ingestion step of a small relay server that long-polls the
Telegram Bot API (`getUpdates`) and keeps a rolling view of recent messages for a web page. The
step is `pollTelegramUpdates` in `index.js`. It owns three pieces of process-wide state:

- the update cursor `lastUpdateId` (the `offset` of the next request);
- the in-flight flag `isPolling`, which makes an overlapping cycle give up instead of queueing;
- the display buffer `messages`, which holds at most 50 records, oldest first.

For each update of a batch the step re-checks the update id against the cursor and advances
the cursor. It picks the payload from `message`, `channel_post` or `edited_message`, in that
order. It turns the payload into a record `{id, chatId, from, text, date}`, with fixed fallbacks
for a missing sender, text or chat. It appends the record and evicts the oldest one once the
buffer holds more than 50.

Layout:

- `wrappers.dfy`: `Option`.
- `updates.dfy`: the update, payload, user and chat shapes. `Truthy` is JavaScript truthiness of a
  string field: present and non-empty.
- `normalise.dfy`: payload selection and the sender, text and chat-id fallbacks.
- `ingest.dfy`: the cursor and buffer as a value (`State`). It defines one update (`Step`) and a
  batch (`RunBatch`). It also gives a closed-form account of what a batch accepts (`Accepted`,
  `Ingested`) and proves the invariants and properties below.
- `server.dfy`: class `Poller`, whose fields are the three state variables. Its methods mirror the
  source statement by statement and are proved against the functions of `ingest.dfy`.

Inputs from outside the process are parameters:

- `Reply` is the outcome of the `getUpdates` request: either its `result` list or a thrown error.
- `fmt: int -> string` stands for the locale date formatting `new Date(date * 1000).toLocaleString('zh-CN')`,
  which is not computed here.

The source function suspends at the `await` of the request. `Poll` is therefore split at that
point into `EnterPoll`, the guard that sets the flag, and `FinishPoll`, which runs from the reply
to the `finally`. A second cycle that starts while the first is suspended is an `EnterPoll` that
sees the flag set.

Three consequences of the code worth stating:

- Sender name. Only `from.first_name` and `sender_chat.title` are read, then the literal
  `'未知用户'` is used; the full name and the username are not read.
- Cursor. The cursor moves after every accepted update. After a batch it is one past the largest
  id of the batch, or the old cursor when that is larger (`Ingest.BatchCursor`).
- Order. The re-check accepts only an id greater than every id before it, so records in the
  buffer have strictly increasing ids as well as arrival order (`Ingest.Inv`,
  `Ingest.IngestedIdsIncreasing`).

## Model

| member | source | states |
|---|---|---|
| Normalise.SelectPayload | index.js:57-64 | Nothing is chosen exactly when `message`, `channel_post` and `edited_message` are all absent. Otherwise one of the present variants is chosen, with precedence `message` > `channel_post` > `edited_message`. |
| Normalise.SenderName | index.js:68-73 | `from.first_name` if present and non-empty; else `sender_chat.title` if present and non-empty; else `'未知用户'`. The name is never empty. |
| Normalise.DisplayText | index.js:75 | The payload text if present and non-empty, else `'[非文本消息]'`. The text is never empty. |
| Normalise.ChatIdOf | index.js:77 | The chat id is numeric exactly when the payload has a `chat`, and then it equals `chat.id`. Otherwise it is the string `'未知'`. |
| Normalise.ToMessage | index.js:68-92 | The record carries the update id, the formatted date, the chat id of `ChatIdOf`, the sender of `SenderName` and the text of `DisplayText`; its sender and text are therefore never empty. |
| Ingest.Append | index.js:86-96 | The new record is last. Below the bound the record is just appended. At the bound the oldest record is dropped. A buffer within the bound stays within it. |
| Ingest.AppendLastN | index.js:86-96 | Appending to the newest 50 records of a history gives the newest 50 of the extended history (FIFO eviction). |
| Ingest.Step | index.js:54-99 | An update with `update_id >= lastUpdateId` sets the cursor to `update_id + 1`. A lower id leaves cursor and buffer unchanged. An update without a payload appends nothing. An accepted update with a payload appends its record. The cursor never decreases. |
| Ingest.RunBatch | index.js:52-101 | The cursor never decreases over a batch. |
| Ingest.StepKeepsInv | index.js:54-96 | One update preserves the invariant: buffer length at most 50, ids strictly increasing, every id below the cursor. |
| Ingest.AppendKeepsOrder | index.js:86-96 | Appending a record newer than every buffered one keeps the bound, the id order and the bound below the cursor, eviction included. |
| Ingest.BatchKeepsInv | index.js:52-101 | A whole batch preserves the invariant. |
| Ingest.BatchCursor | index.js:52-55 | After a batch the cursor is at least its old value and above every id in the batch. It is either the old value or one past some id in the batch, that is, one past the largest. |
| Ingest.AcceptedIff | index.js:54-55 | The cursor re-check on update `i` passes if and only if its id is at least the starting cursor and greater than every earlier id in the batch. |
| Ingest.BatchBuffer | index.js:52-96 | From a buffer within its bound, a batch leaves exactly the newest 50 of the old buffer followed by the batch's accepted records in arrival order. |
| Ingest.LastNAbsorbs | index.js:86-96 | Cutting a history to its newest 50 before adding more records leaves the same newest 50 as not cutting it, so FIFO eviction across many appends keeps the newest 50 overall. |
| Ingest.TwoBatchesBuffer | index.js:52-96 | After two consecutive cycles the buffer is the newest 50 of the old buffer, then the first batch's records, then the second's, in arrival order. |
| Ingest.IngestedIdsIncreasing | index.js:54-87 | The ids of the records one batch appends are strictly increasing, not below the starting cursor, and each is the id of one of the batch's updates. |
| Ingest.FreshBatchTakenWhole | index.js:52-92 | A batch whose ids strictly increase from at least the cursor, and whose updates all carry a payload, yields one record per update, in order. |
| Ingest.OverflowEvictsOldest | index.js:86-96 | Fifty-one accepted records into an empty buffer leave records 2 to 51. |
| Ingest.FiftyOneMessages | index.js:52-96 | From the initial state, 51 fresh messages leave exactly the records of updates 2 to 51, oldest first, and the cursor one past the last id. |
| Server.Poller.constructor | index.js:23-25 | The initial state: cursor 0, flag false, empty buffer. It satisfies the invariant. |
| Server.Poller.ProcessUpdate | index.js:54-99 | The in-place loop body changes cursor and buffer exactly as `Step` does, keeps the invariant, and runs with the flag set. |
| Server.Poller.ProcessBatch | index.js:52-101 | The `forEach` loop changes cursor and buffer exactly as `RunBatch` does, keeping the invariant and the flag set. |
| Server.Poller.EnterPoll | index.js:34-39 | The cycle proceeds exactly when no cycle is in flight. Afterwards the flag is set, and cursor and buffer are unchanged. |
| Server.Poller.FinishPoll | index.js:49-112 | A failed request or an empty batch leaves cursor and buffer unchanged. A batch is ingested as `RunBatch`. The flag is false on exit on both paths. |
| Server.Poller.Poll | index.js:33-116 | While a cycle is in flight, the call changes nothing and the flag stays set. Otherwise the batch is ingested (nothing changes on failure or on an empty batch) and the flag is cleared. |

## Left out

- The `getUpdates` request through axios (index.js:42-47) is network I/O. Its outcome is the `Reply` parameter.
- The distinction between a 409 conflict and other errors (index.js:106-110) only changes the log message. Both are `Failed`.
- An exception thrown in the middle of a batch is not modelled. It could come only from the log write (index.js:82) or the console. The cursor has then already moved past that update (index.js:55) while its record was never pushed (index.js:86), so that update is lost for good: the next `offset` confirms it to Telegram. The updates after it in the batch come back in the next reply, and the flag is cleared by the `finally`.
- `new Date(...).toLocaleString('zh-CN')` (index.js:76) is a locale and time library call. It is the `fmt` parameter.
- The message log file (index.js:21, 27-30, 79-83), console logging, and configuration loading with `process.exit` (index.js:9-20) are file I/O. They are not modelled.
- The `setTimeout` rescheduling (index.js:114) and the start-up call (index.js:119) are timer scheduling. They only re-enter `Poll`.
- Express routing, static files, `listen` and the `/api/messages` handler (index.js:121-134) are left out. The handler returns `messages` unchanged.
- public/script.js, the browser page, is not part of this model.
- Numbers are unbounded integers. IEEE-754 doubles, a missing or non-numeric `update_id`, and a missing `date` are not modelled. Telegram always sends integer ids and dates.
- index.js has no stream relay, viewer table, keyword auto-forward or token switching, so the model has none either.
