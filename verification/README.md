# Contest bot: listing formatter, subscriber store and `/start` listener

A Dafny model of the core of `main.py`, a Telegram bot that registers the
users who send `/start` and answers each of them with a personal greeting
followed by the full list of upcoming programming contests.

The model has four modules:

- `PyText` (`pytext.dfy`): the Python behaviour the bot relies on.
  - optional dictionary fields (`dict.get` with a default);
  - truthiness of an optional string, and `a or b or ""` chains;
  - `str(n)` for a non-negative integer;
  - `str.strip()` over Python's full whitespace set.
- `Formatter` (`formatter.dfy`): `format_contest_entries` and
  `format_full_contests`.
  - The loop that appends one block per contest is a method,
    `FormatContestEntries`. It is proved equal to the function
    `FormatEntries`.
  - Lemmas about `FormatEntries` give the layout: a header, then one block
    per entry, numbered from 1 and in input order. Each block starts with its
    bold heading and ends with an empty line.
- `UserStore` (`user_store.dfy`): the users file and its operations.
  - The file's decoded content is the value `UsersDoc`: unreadable, falsy,
    one object, or a list.
  - `load_users` normalises that content to a list.
  - `add_user` is a method. It loads the list, scans it for the chat id with
    the loop of `any(...)`, then appends and saves. It is proved equal to the
    function `AddToDoc`.
  - Lemmas show that any sequence of registrations keeps chat ids unique, is
    idempotent, and loses no chat id.
- `Listener` (`listener.dfy`): one `getUpdates` batch of
  `listen_for_new_users`.
  - The batch is the method `ProcessBatch`. It is proved equal to `Run`, a
    fold of `Step` over the updates.
  - For every update, the offset becomes that update's id plus one.
  - A `/start` message registers its sender and sends to its chat the
    greeting `👋 Hello <name>!` followed by the full listing.
  - A `/start` message without a `from` field makes Python raise a
    `KeyError`. The surrounding `except` then drops the rest of the batch;
    the offset has already moved past the failing update. The model records
    this as `halted`.
  - `Run` and its lemmas take the reply text as a function `greet` of the
    sender. `ProcessBatch` passes `Greet(FullListing(contests))`, and
    `CleanBatch` states the result for that function.

Inputs that come from outside the program become parameters:

| Parameter | Stands for |
|---|---|
| `contests` | the decoded contest file |
| `UsersDoc` | the users file |
| `updates` | the `result` list of a `getUpdates` response |

Outputs become values:

| Value | Stands for |
|---|---|
| the returned `UsersDoc` | what the users file holds afterwards |
| `sends` | the `send_message` calls, in order |
| `offset` | the next offset |

## Model

| member | source | states |
|---|---|---|
| PyText.Or | main.py:48-49 | `a or rest` gives `a` when `a` is set and non-empty, and `rest` otherwise |
| PyText.NatToString | main.py:37 | `str(n)` is a non-empty string of decimal digits, with no leading zero unless `n` is 0 |
| PyText.ParseNatToString | main.py:37 | reading the rendered count or entry number back gives the number |
| PyText.NatToStringInjective | main.py:40 | different entry numbers are rendered differently |
| PyText.TrimStart | main.py:153 | the result is a suffix of `s` that does not start with whitespace |
| PyText.TrimStartDrops | main.py:153 | all that the left strip drops is whitespace |
| PyText.TrimEnd | main.py:153 | the result is a prefix of `s` that does not end with whitespace |
| PyText.TrimEndDrops | main.py:153 | all that the right strip drops is whitespace |
| PyText.Strip | main.py:153 | `strip()` leaves no whitespace at either end |
| PyText.StripKeepsMiddle | main.py:153 | `strip()` gives the middle of `s`, with a run of whitespace before it and another after it |
| PyText.TrimStartOf | main.py:153 | the left strip of whitespace followed by text that does not start with whitespace is that text |
| PyText.TrimEndOf | main.py:153 | the right strip of text that does not end with whitespace, followed by whitespace, is that text |
| PyText.StripOf | main.py:153 | `strip()` of whitespace, trimmed text and whitespace again gives exactly the trimmed text |
| PyText.StripIdempotent | main.py:153 | stripping twice is the same as stripping once |
| Formatter.NoneFound | main.py:34-35 | the reply for an empty list, `❌ <title> - none found.`; `FormatEntries` gives it exactly when the list is empty |
| Formatter.Header | main.py:37-38 | the title with the entry count in parentheses, a rule of forty '=' and a blank line; `FormatLayout` places it before the blocks |
| Formatter.Heading | main.py:40 | the bold line `<entry number>. <name>`; `BlockShape` shows each block opens with it |
| Formatter.Block | main.py:40-63 | the heading, the date line, the optional time, platform and link lines, then a blank line; `RenderBlock` builds it and `BlockShape` states its shape |
| Formatter.Numbered | main.py:39 | the `enumerate(entries, 1)` loop's output; `NumberedIsConcat` shows it is the in-order join of the blocks, the k-th numbered `first + k` |
| Formatter.Repeat | main.py:38 | `"=" * 40` is forty '=' characters |
| Formatter.NameOf | main.py:40 | the block heading shows the contest name, or "Unnamed" when it is absent |
| Formatter.DateOf | main.py:42-45 | the date is `_parsed_date` when it is set and non-empty, else `date`, else "Unknown" |
| Formatter.DateLine | main.py:42-45 | the date line is always present and ends in a newline |
| Formatter.TimeLine | main.py:48-54 | there is a time line iff the start time or the time field is non-empty. It shows the start time in preference to the time field, then " - " and the end time when the end time is non-empty |
| Formatter.PlatformLine | main.py:56-58 | there is a platform line iff one of platform, site and resource is non-empty, and it shows the first non-empty one in that order |
| Formatter.LinkLine | main.py:60-61 | there is a link line iff the url is non-empty; it is an HTML anchor labelled "Link" |
| Formatter.FormatEntries | main.py:32-65 | the reply is the none-found message exactly when there are no entries; otherwise it opens with the header `title (count)` |
| Formatter.RenderBlock | main.py:40-63 | one loop pass appends exactly the block of the entry numbered `n`, each optional line added only when its field is set |
| Formatter.FormatContestEntries | main.py:32-65 | the message built by appending the header and then one block per entry is `FormatEntries(entries, title)` |
| Formatter.NumberedSnoc | main.py:39 | numbering one more entry appends that entry's block, numbered by its position |
| Formatter.ConcatSnoc | main.py:39-63 | joining one more part appends it at the end |
| Formatter.NumberedBlocks | main.py:39-63 | part `i` is the block of entry `i`, numbered `i + 1` |
| Formatter.NumberedIsConcat | main.py:39-63 | the loop's output is the in-order join of the numbered blocks |
| Formatter.FormatLayout | main.py:37-65 | a non-empty listing is the header followed by exactly one block per entry, numbered from 1, in input order |
| Formatter.NewlineKept | main.py:54-61 | adding an empty or newline-terminated line keeps the newline at the end |
| Formatter.EndsInEmptyLine | main.py:40-63 | a block starts with its heading and ends in an empty line |
| Formatter.BlockShape | main.py:40-63 | every block opens with its bold numbered heading and ends with the blank line that separates it from the next |
| Formatter.FullListing | main.py:68-74 | "No contests available" is returned exactly when the list is empty. Otherwise the reply is the "ALL CONTESTS" header followed by exactly one block per contest, numbered from 1, in input order; it is never the none-found message |
| UserStore.LoadUsers | main.py:77-84 | a falsy or unreadable file gives the empty list, a single object a one-element list, and a list itself |
| UserStore.SaveUsers | main.py:87-89 | a saved list loads back unchanged |
| UserStore.AnyWithChatId | main.py:96 | the scan answers true iff some stored entry has the chat id |
| UserStore.Insert | main.py:92-103 | nothing changes iff the chat id is already present. Otherwise the user is appended at the end. Afterwards the chat id is present, the chat-id set gains exactly that id, and uniqueness of chat ids is kept |
| UserStore.AddToDoc | main.py:92-103 | the file afterwards loads as the insertion into what it held; it is left untouched when the chat id was present, and rewritten as a list otherwise |
| UserStore.AddUser | main.py:92-103 | the method reports whether the user was new, and leaves the file as `AddToDoc` says |
| UserStore.InsertAll | main.py:92-103 | the list after `add_user` for each subscriber in turn; `InsertAllKeeps`, `InsertAllIdempotent` and `OneEntryPerChatId` state what it holds |
| UserStore.InsertAllSnoc | main.py:92-103 | registering one more user acts on the list the earlier registrations left |
| UserStore.InsertAllKeeps | main.py:92-103 | any sequence of registrations only appends, keeps chat ids unique, and leaves exactly the old ids plus the submitted ones |
| UserStore.InsertAllPresent | main.py:96-103 | registering users whose chat ids are all stored changes nothing |
| UserStore.InsertAllIdempotent | main.py:92-103 | repeating a sequence of registrations changes nothing |
| UserStore.UniqueCount | main.py:96-99 | a list with unique chat ids has one entry per chat id |
| UserStore.OneEntryPerChatId | main.py:92-103 | from an empty file, registrations leave exactly one entry per distinct chat id submitted |
| Listener.TextOf | main.py:133 | `msg.get("text", "")`: the message text, empty when absent |
| Listener.NewSubscriber | main.py:139-146 | the stored record: the chat id and the sender's id, names, username and language code; `SenderOf` recovers the sender from it |
| Listener.Fails | main.py:135-136 | a `/start` message with no `from` field, on which `msg["from"]` raises |
| Listener.GreetingName | main.py:151-153 | the name in the greeting has no surrounding whitespace |
| Listener.GreetingNameCases | main.py:151-153 | with neither name set the greeting name is empty. With one name it is that name, and with both it is the two names joined by a space |
| Listener.Welcome | main.py:154-155 | the reply text starts with `👋 Hello ` and ends with the full listing |
| Listener.Step | main.py:129-157 | one update moves the offset to its id plus one and halts the batch exactly when it is a `/start` without `from`. An update that is not a `/start` from a known sender changes nothing else; one that is adds exactly one message |
| Listener.Run | main.py:122-162 | the batch is cut short exactly when some update is a `/start` without `from` |
| Listener.RunSnoc | main.py:128-159 | one more update applies the loop body to it, unless the batch has already been cut short |
| Listener.RunHaltedStays | main.py:122-162 | once an update raises, the remaining updates of the batch change nothing |
| Listener.ProcessBatch | main.py:127-159 | the loop over a `getUpdates` result leaves the offset, users file, messages sent and halt flag that `Run` gives |
| Listener.CollectSnoc | main.py:128 | collecting over one more update appends what that update contributes |
| Listener.CleanFront | main.py:128 | a prefix of a batch in which nothing raises raises nothing |
| Listener.RunCleanOffset | main.py:129 | in a batch where nothing raises, the batch runs to its end and the offset is one past the last update id (unchanged when there are no updates) |
| Listener.StepReplies | main.py:130-157 | one update that does not raise sends exactly the reply a `/start` from a known sender calls for |
| Listener.StepUsers | main.py:130-148 | one update that does not raise registers exactly the sender of a `/start` |
| Listener.InsertAllAppend | main.py:148 | registering two runs of users in turn is registering their concatenation |
| Listener.RunCleanReplies | main.py:128-157 | in a batch where nothing raises, exactly the `/start` messages are answered, in order, each in its own chat |
| Listener.RunCleanUsers | main.py:128-148 | in a batch where nothing raises, the users file ends up as registering every `/start` sender in turn leaves it |
| Listener.RunFails | main.py:122-162 | when update `k` is the first to raise, the offset stops just past it, and the replies and registrations are those of the updates before it |
| Listener.RunKeepsChatIdsUnique | main.py:128-148 | a batch never gives a chat id a second entry in the users file |
| Listener.SenderOf | main.py:139-146 | the subscriber record keeps every field of the sender it was built from |
| Listener.RepliesMatchRegistrants | main.py:139-157 | the k-th reply goes to the chat of the k-th subscriber registered, with the text built from that subscriber's sender data |
| Listener.CleanBatch | main.py:127-159 | a batch where nothing raises registers every `/start` sender. The k-th message sent goes to the k-th registered subscriber's chat, as `👋 Hello <name>!`, a blank line and the full contest listing |

## Left out

- Network I/O: `getUpdates`, `send_message`, its `try`/`except`, and the Playwright import. Updates are a parameter; messages sent are a list.
- File I/O and JSON decoding: `load_json_file`, `load_contests`, `save_users`, `json.dump`. The users file is the `UsersDoc` value and the contests are a parameter. A missing or undecodable users file is `Unreadable`.
- The endless `while True` loop, the sleeps, and the `print` logging. Only one batch is modelled.
- The outer `except` is modelled only through `halted`. The one exception modelled is a `/start` message without `from`.
- Messages lacking `chat` or `chat.id` would raise `KeyError` before `/start` is checked; every modelled `Message` carries a chat id.
- A response without a `result` field is not modelled separately. It behaves as an empty batch.
- `_parsed_date.isoformat()` (main.py:43): the model reads `parsedDate` as a string that is shown as it is. In `main.py` the contests come from `json.load`, so a truthy `_parsed_date` is a JSON string, number, boolean, list or object, and `.isoformat()` raises `AttributeError`. The model does not capture what then happens to a `/start` in the listener. `format_full_contests()` (main.py:155) runs after `add_user` (main.py:148), so the sender is registered but no reply is sent. The `except` (main.py:161) then drops the rest of the batch, with the offset already past that update. `FullListing`, `Step`, `Run`, `ProcessBatch` and `CleanBatch` instead answer with a listing that shows the value, and they promise nothing for a contest list that has a truthy `_parsed_date`.
- Formatter.DateOf: it shows a truthy `_parsed_date` as it is, where `main.py` raises; see the `_parsed_date.isoformat()` line above.
- A contest file that holds a truthy JSON value other than a list of objects is not modelled. That includes a single object, or a list with a non-object entry, on which `c.get` raises at main.py:40. It ends the same way as a truthy `_parsed_date`: the `/start` sender is registered, no reply is sent, and the rest of the batch is dropped. The model's `contests` is always a list of records.
- `None` in a contest record or a sender stands for an absent key. A key present with JSON `null` is not modelled: for `contest` and `date` Python would then show "None" rather than "Unnamed" or "Unknown". JSON field values of other types than strings (null, numbers, nested objects) in contest records and sender fields are not modelled.
- The users file must hold a list or one object. A stored entry without `chat_id`, or any other truthy JSON value, would make `add_user` raise; neither case is modelled.
- `format_full_contests` re-reads the contest file for every `/start`. The model reads one contest list for the whole batch, so the file is assumed not to change during a batch.
- Formatter.FormatEntries: for a non-empty list its own contract states only the header. The full layout is proved separately by `FormatLayout`.
- Listener.GreetingNameCases: the four cases are stated for names without surrounding whitespace. Other names are covered only by `StripKeepsMiddle`.
