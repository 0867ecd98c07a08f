/** `SlotReader`: owns a replication connection with its cursor and a plain
    connection, builds the primary-key map, and creates and drops its logical
    replication slot idempotently. */
module Slot {
  import opened PgErrors
  import opened PrimaryKeys
  import opened Replication

  /** The output plugin every slot is created with. */
  const TestDecoding: string := "test_decoding"

  /** What `create_slot` asks the server to create. */
  const LogicalTestDecoding: SlotInfo := SlotInfo(Logical, Some(TestDecoding))

  class SlotReader {
    const config: DbConfig
    const replConn: Connection
    const conn: Connection
    const cursor: ReplicationCursor
    /** Where the three handles record their closing. */
    ghost const journal: Journal
    var slotName: string
    var curLag: int

    /** The cursor is the replication connection's; the plain connection is a
        second, separate connection from the same configuration; all three
        handles share the reader's journal. */
    ghost predicate Valid()
      reads this
    {
      && cursor.connection == replConn
      && replConn != conn
      && replConn.replication && !conn.replication
      && replConn.config == conn.config == config
      && cursor.journal == replConn.journal == conn.journal == journal
    }

    /** `__init__`: opens the replication connection, then the plain one, both
        from the same configuration, takes the replication cursor, and sets
        `slot_name` and `cur_lag`. */
    constructor (database: string, host: string, port: int, user: string, slotName: string,
                 server: ReplicationServer)
      ensures Valid()
      ensures fresh(replConn) && fresh(conn) && fresh(cursor) && fresh(journal)
      ensures config == DbConfig(database, host, port, user)
      ensures cursor.server == server && cursor.Usable() && !conn.closed
      ensures this.slotName == slotName && curLag == 0
      ensures journal.closed == []
    {
      config := DbConfig(database, host, port, user);
      ghost var log := new Journal();
      journal := log;
      var repl := new Connection(DbConfig(database, host, port, user), true, log);
      replConn := repl;
      conn := new Connection(DbConfig(database, host, port, user), false, log);
      cursor := new ReplicationCursor(repl, server, log);
      this.slotName := slotName;
      curLag := 0;
    }

    /** `__exit__`: closes the replication cursor, the replication connection
        and the plain connection, in that order. It returns nothing, so an
        exception that ended the `with` block is not suppressed. */
    method Exit()
      requires Valid()
      modifies cursor, replConn, conn, journal
      ensures cursor.closed && replConn.closed && conn.closed && !cursor.Usable()
      ensures journal.closed ==
                old(journal.closed) + [ReplicationCursorHandle, ReplicationConnectionHandle, ConnectionHandle]
    {
      cursor.Close();
      replConn.Close();
      conn.Close();
    }

    /** `primary_key_map()`. `fetched` is what executing the catalog query and
        fetching all its rows returned or raised; asking a cursor of a closed
        connection raises before the query runs. */
    method PrimaryKeyMap(fetched: Result<seq<Row>>) returns (r: Result<map<string, PrimaryKeyMapItem>>)
      ensures conn.closed ==> r == Err(InterfaceError)
      ensures !conn.closed && fetched.Err? ==> r == Err(fetched.error)
      ensures !conn.closed && fetched.Ok? ==> r.Ok? && r.value.Keys == TableNames(fetched.value)
      ensures !conn.closed && fetched.Ok? ==>
                forall t :: t in r.value ==> r.value[t].tableName == t
      ensures !conn.closed && fetched.Ok? ==>
                forall t, j :: IsLastRowOf(fetched.value, t, j) ==>
                  t in r.value && r.value[t] == MakeItem(fetched.value[j])
    {
      if conn.closed {
        r := Err(InterfaceError);
      } else if fetched.Err? {
        r := Err(fetched.error);
      } else {
        var rows := fetched.value;
        r := Ok(PrimaryKeys.PrimaryKeyMap(rows));
        PrimaryKeyMapKeys(rows);
        forall t, j | IsLastRowOf(rows, t, j)
          ensures t in r.value && r.value[t] == MakeItem(rows[j])
        {
          PrimaryKeyMapLastWins(rows, t, j);
        }
      }
    }

    /** `create_slot()`: asks for a logical slot named `slot_name` with the
        `test_decoding` plugin, and treats "already exists" as success.
        `fault` is the failure, if any, the environment injects into the
        library call. */
    method CreateSlot(fault: Option<DbError>) returns (r: Outcome)
      modifies cursor.server
      ensures r.Returned? <==> cursor.Usable() && (fault.None? || fault == Some(SlotAlreadyExists))
      ensures r.Raised? ==> if cursor.Usable() then fault == Some(r.error) else r.error == InterfaceError
      ensures r.Returned? && fault != Some(SlotAlreadyExists) ==> slotName in cursor.server.slots
      ensures cursor.server.slots ==
                if cursor.Usable() && fault.None? && slotName !in old(cursor.server.slots)
                then old(cursor.server.slots)[slotName := LogicalTestDecoding]
                else old(cursor.server.slots)
      ensures cursor.server.slots - {slotName} == old(cursor.server.slots) - {slotName}
    {
      var attempt := cursor.CreateReplicationSlot(slotName, Logical, Some(TestDecoding), fault);
      r := Tolerate(attempt, DuplicateObject);
    }

    /** `delete_slot()`: drops the slot named `slot_name`, and treats "does not
        exist" as success. */
    method DeleteSlot(fault: Option<DbError>) returns (r: Outcome)
      modifies cursor.server
      ensures r.Returned? <==> cursor.Usable() && (fault.None? || fault == Some(SlotDoesNotExist))
      ensures r.Raised? ==> if cursor.Usable() then fault == Some(r.error) else r.error == InterfaceError
      ensures r.Returned? && fault != Some(SlotDoesNotExist) ==> slotName !in cursor.server.slots
      ensures cursor.server.slots ==
                if cursor.Usable() && fault.None? then old(cursor.server.slots) - {slotName}
                else old(cursor.server.slots)
      ensures cursor.server.slots - {slotName} == old(cursor.server.slots) - {slotName}
    {
      var attempt := cursor.DropReplicationSlot(slotName, fault);
      r := Tolerate(attempt, UndefinedObject);
    }
  }

  /** Creating the slot twice: both calls succeed and the slot is present.
      The first call creates it if it was absent; the second changes nothing,
      and no other slot is touched. */
  method CreateSlotTwice(reader: SlotReader) returns (first: Outcome, second: Outcome)
    requires reader.cursor.Usable()
    modifies reader.cursor.server
    ensures first == Returned && second == Returned
    ensures reader.slotName in reader.cursor.server.slots
    ensures reader.cursor.server.slots ==
              if reader.slotName in old(reader.cursor.server.slots) then old(reader.cursor.server.slots)
              else old(reader.cursor.server.slots)[reader.slotName := LogicalTestDecoding]
  {
    first := reader.CreateSlot(None);
    second := reader.CreateSlot(None);
  }

  /** Dropping a slot that does not exist succeeds and changes nothing. */
  method DeleteAbsentSlot(reader: SlotReader) returns (r: Outcome)
    requires reader.cursor.Usable()
    requires reader.slotName !in reader.cursor.server.slots
    modifies reader.cursor.server
    ensures r == Returned
    ensures reader.cursor.server.slots == old(reader.cursor.server.slots)
  {
    r := reader.DeleteSlot(None);
  }

  /** Create, delete, create: every step succeeds and the slot ends present,
      as a logical `test_decoding` slot, whatever state it started in. */
  method CreateDeleteCreate(reader: SlotReader) returns (r1: Outcome, r2: Outcome, r3: Outcome)
    requires reader.cursor.Usable()
    modifies reader.cursor.server
    ensures r1 == Returned && r2 == Returned && r3 == Returned
    ensures reader.cursor.server.slots ==
              old(reader.cursor.server.slots)[reader.slotName := LogicalTestDecoding]
  {
    r1 := reader.CreateSlot(None);
    r2 := reader.DeleteSlot(None);
    r3 := reader.CreateSlot(None);
  }

  /** Once the reader has been exited, creating the slot raises the
      InterfaceError of a closed cursor, which `create_slot` does not catch,
      and the server is left as it was. */
  method CreateSlotAfterExit(reader: SlotReader) returns (r: Outcome)
    requires reader.Valid()
    modifies reader.cursor, reader.replConn, reader.conn, reader.journal, reader.cursor.server
    ensures r == Raised(InterfaceError)
    ensures reader.cursor.server.slots == old(reader.cursor.server.slots)
    ensures reader.cursor.closed && reader.replConn.closed && reader.conn.closed
    ensures reader.journal.closed ==
              old(reader.journal.closed) + [ReplicationCursorHandle, ReplicationConnectionHandle, ConnectionHandle]
  {
    reader.Exit();
    r := reader.CreateSlot(None);
  }
}
