# SlotReader of pg2kinesis, modelled in Dafny

pg2kinesis streams PostgreSQL changes through a logical replication slot.
Its `SlotReader` (slot.py) does two things that can be stated precisely:

- **Primary-key map.** It turns the rows of a catalog query into
  `PrimaryKeyMapItem` records (table, column, type, ordinal position). A dict
  comprehension then keys them by table name. Later rows overwrite earlier
  ones, so each table keeps exactly one item: its last row in fetch order. A
  composite key therefore collapses to its last column. A table without a
  primary key keeps an item whose three column fields are NULL. Grouping
  every key column of a table into an ordered list would keep composite
  keys; the code does not do that, and this model follows the code.
- **Idempotent slot management.** `create_slot` asks for a logical slot with
  the `test_decoding` output plugin. It treats a `ProgrammingError` with
  SQLSTATE 42710 (`duplicate_object`) as success. `delete_slot` drops the slot
  and treats SQLSTATE 42704 (`undefined_object`) as success. Both codes belong
  to class 42 of Appendix A, "Error Codes", of the PostgreSQL documentation.
  Any other `ProgrammingError` is re-raised unchanged. Any other exception
  class is not caught.

The reader also holds `slot_name`, `cur_lag` (0 at construction), and three
handles: the replication cursor, the replication connection and the plain
connection. `__exit__` closes those three in that order.

Files:

- `pg_errors.dfy` (module `PgErrors`): psycopg2's exceptions as a datatype,
  the two SQLSTATE codes, and `Tolerate`, the except-clause both wrappers
  share.
- `primary_keys.dfy` (module `PrimaryKeys`): rows, items, the keyed fold, and
  the lemmas about it.
- `replication.dfy` (module `Replication`): what the reader relies on from
  psycopg2 and the server. This covers connections, the replication cursor's
  `create_replication_slot` and `drop_replication_slot`, and the server's slot
  registry. The module's header comment records the assumption about the
  library. The only evidence for it in the source is the comment at
  slot.py:78.
- `slot_reader.dfy` (module `Slot`): the `SlotReader` class and client
  methods for the idempotency scenarios.

Modelling choices:

- The server's registry is a `map` from slot name to slot type and output
  plugin. Its key set is the set of existing slots. The plugin and type are
  recorded so that "create asks for a logical `test_decoding` slot" can be
  observed.
- The library calls may fail for reasons outside this code, such as a lost
  connection or a denied permission. Such a failure is the `fault` argument,
  supplied by the environment. A failing call leaves the registry unchanged.
  The wrapper contracts hold for every `fault`. The scenarios pass `None`.
- A call on a closed cursor, or on a cursor whose connection is closed,
  raises psycopg2's `InterfaceError`. The model keeps only the exception
  class, not its message. `create_slot` and `delete_slot` do not
  catch it. Asking a cursor of a closed plain connection raises the same
  error class in `primary_key_map`.
- The order in which handles close is observable through a `Journal`
  object shared by the three handles. Each handle's `Close` appends its own
  tag, so `Exit`'s contract about the order rests on the real calls.
- `CreateSlot`'s contract shows one consequence of the code. If a slot with
  the same name already exists, `create_slot` returns normally and leaves that
  slot as it was, even when it is a physical slot or uses another plugin. The
  server reports `duplicate_object` whatever the existing slot's type is.

## Model

| member | source | states |
|---|---|---|
| `PgErrors.Tolerate` | slot.py:77-83 | Returns normally exactly when the call returned normally or raised a ProgrammingError with the tolerated pgcode. Any other outcome is passed through unchanged: another pgcode, a None pgcode, a non-ProgrammingError even with that code. The tolerated error never escapes. `delete_slot` uses the same rule at slot.py:89-95. |
| `PrimaryKeys.MakeItem` | slot.py:13 | `PrimaryKeyMapItem._make` keeps the row's four columns in the field order `table_name, col_name, col_type, col_ord_pos`: reading the fields back gives the row. |
| `PrimaryKeys.Items` | slot.py:65 | `map(PrimaryKeyMapItem._make, …)` yields one item per fetched row, in fetch order, each carrying its row's table name. |
| `PrimaryKeys.ByTable` | slot.py:66 | In the dict built by the comprehension, every value is keyed by its own `table_name`, and every value is one of the items. |
| `PrimaryKeys.PrimaryKeyMap` | slot.py:63-69 | Every entry of the returned map is keyed by its item's table name. |
| `PrimaryKeys.PrimaryKeyMapSnoc` | slot.py:66 | Folding one more row replaces that table's entry with the item made of the row. The map is a left-to-right, last-wins fold. |
| `PrimaryKeys.PrimaryKeyMapKeys` | slot.py:65-66 | The key set is exactly the set of table names among the fetched rows. No table is dropped, including tables without a primary key. |
| `PrimaryKeys.PrimaryKeyMapLastWins` | slot.py:65-66 | For the last row of table `t` in fetch order, `t` is a key. `t`'s item has that row's columns in order: table name, column name, column type, ordinal position (field order of slot.py:13). |
| `PrimaryKeys.PrimaryKeyMapEntries` | slot.py:66 | Conversely, every key's item is the item of the last row of that table. |
| `PrimaryKeys.TableNamesBound` | slot.py:66 | There are never more distinct table names than rows. |
| `PrimaryKeys.TableNamesStrictBound` | slot.py:66 | When two rows share a table, there are strictly fewer distinct table names than rows. |
| `PrimaryKeys.CompositeKeyCollapses` | slot.py:66 | When two rows belong to one table (for example two columns of a composite key), the earlier row is overwritten. The table's entry comes from the later row or beyond. The map has fewer entries than there were rows. |
| `Replication.ReplicationCursor.CreateReplicationSlot` | slot.py:74-78 | Library assumption: on a closed cursor it raises InterfaceError. Otherwise an injected fault is raised. Otherwise it raises `duplicate_object` if the name exists, or else inserts the slot with the requested type and plugin. It changes the registry only on success. |
| `Replication.ReplicationCursor.DropReplicationSlot` | slot.py:88 | Library assumption: on a closed cursor it raises InterfaceError. Otherwise an injected fault is raised. Otherwise it raises `undefined_object` if the name is absent, or else removes it. It changes the registry only on success. |
| `Replication.ReplicationCursor.Close` | slot.py:46 | Library assumption: `cursor.close()` always succeeds, leaves the cursor closed, and appends the cursor to the shared close journal. |
| `Replication.Connection.Close` | slot.py:47-48 | Library assumption: `close()` always succeeds, leaves the connection closed, and appends it to the shared close journal, tagged as the replication or the plain connection. |
| `Slot.SlotReader.constructor` | slot.py:32-40 | A fresh reader has two new open connections from one configuration: a replication one and a plain one. It has an open cursor on the replication connection, `slot_name` as given and `cur_lag == 0`. Nothing is closed yet. |
| `Slot.SlotReader.Exit` | slot.py:45-48 | Afterwards the cursor, the replication connection and the plain connection are all closed, and the cursor can no longer be used. The shared close journal, to which each handle's own `Close` appends, gains exactly cursor, replication connection, plain connection, in that order. |
| `Slot.SlotReader.PrimaryKeyMap` | slot.py:63-69 | On a closed plain connection it raises InterfaceError. A failed query or fetch propagates its error. Otherwise the map's keys are the fetched table names. Each value is keyed by its table and is the item of that table's last row. |
| `Slot.SlotReader.CreateSlot` | slot.py:71-83 | Returns normally exactly when the cursor is usable and the library call succeeded or raised `duplicate_object`. Otherwise it raises the library's error unchanged. After a normal return not caused by an injected duplicate, `slot_name` is present. A new slot is logical with plugin `test_decoding`. No other registry entry changes, and neither does the reader. |
| `Slot.SlotReader.DeleteSlot` | slot.py:85-95 | Returns normally exactly when the cursor is usable and the library call succeeded or raised `undefined_object`. Otherwise it raises the library's error unchanged. After a normal return not caused by an injected `undefined_object`, `slot_name` is absent. No other registry entry changes. |
| `Slot.CreateSlotTwice` | slot.py:71-83 | Two successive `create_slot` calls both return normally. The registry ends as it started if `slot_name` was present, and otherwise gains exactly `slot_name` as a logical `test_decoding` slot, so the second call changes nothing. |
| `Slot.DeleteAbsentSlot` | slot.py:85-95 | `delete_slot` on an absent slot returns normally and leaves the registry unchanged. |
| `Slot.CreateDeleteCreate` | slot.py:71-95 | Create, delete, create all return normally, whatever the starting state. The registry ends as it started, except that `slot_name` is a logical `test_decoding` slot. |
| `Slot.CreateSlotAfterExit` | slot.py:45-83 | After `__exit__`, `create_slot` raises the closed-cursor InterfaceError, which is not caught. The registry is left unchanged, all three handles are closed, and the close journal gained cursor, replication connection, plain connection, in that order. |

## Left out

- Opening connections through `psycopg2.connect` and the
  `LogicalReplicationConnection` factory (slot.py:35-36, 50-51). This is I/O
  over a foreign library. The constructor assumes both opens succeed.
- `_execute_and_fetch` and the catalog SQL (slot.py:17-30, 53-61). The
  fetched rows, or the error the query raised, are a parameter of
  `SlotReader.PrimaryKeyMap`. The join and the ORDER BY are not modelled.
- `process_replication_stream` (slot.py:97-99). It hands psycopg2's
  indefinite, blocking consume loop an opaque callback.
- `__enter__` (slot.py:42-43). It only returns the reader itself.
- Unicode type registration (slot.py:10-11) and every `logger` call. They
  have no functional effect.
- Validation inside psycopg2's `create_replication_slot`. It rejects a logical
  slot without a plugin and a physical slot with one. `create_slot` always
  passes a logical type with a plugin, so this check never fires for it.
- The insertion order of the dict built at slot.py:66: a Dafny `map` is
  unordered, so the model does not say that keys appear in the order of
  each table's first fetched row. Nothing in slot.py relies on that order.
- Errors raised while closing handles in `__exit__`. psycopg2's `close` is
  modelled as always succeeding.
- Lag tracking, keepalive/acknowledgement scheduling, handler error
  isolation, per-table key column lists and half-open connection cleanup.
  None of these exist in slot.py. `cur_lag` is only ever set to 0.
