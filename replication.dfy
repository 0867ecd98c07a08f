/** What `SlotReader` relies on from psycopg2 and the server: connections,
    the replication cursor's slot calls, and the server's registry of
    replication slots.

    Assumption about the library (the only evidence for it in slot.py is the
    comment on line 78): `create_replication_slot` raises a ProgrammingError
    with pgcode 42710 (duplicate_object) when a slot of that name exists and
    otherwise creates it; `drop_replication_slot` raises a ProgrammingError
    with pgcode 42704 (undefined_object) when no slot of that name exists and
    otherwise drops it. Either call may instead fail with any error at all
    (lost connection, permission denied, ...): that failure is the `fault`
    argument, chosen by the environment, and a failing call leaves the
    registry as it was. */
module Replication {
  import opened PgErrors

  /** The keyword arguments given to `psycopg2.connect`. */
  datatype DbConfig = DbConfig(database: string, host: string, port: int, user: string)

  datatype SlotType = Logical | Physical

  /** What the server records about a slot: its type and its output plugin
      (a physical slot has none). */
  datatype SlotInfo = SlotInfo(slotType: SlotType, outputPlugin: Option<string>)

  const SlotAlreadyExists: DbError := ProgrammingError(Some(DuplicateObject))
  const SlotDoesNotExist: DbError := ProgrammingError(Some(UndefinedObject))

  /** The three handles `SlotReader.__exit__` closes. */
  datatype Handle = ReplicationCursorHandle | ReplicationConnectionHandle | ConnectionHandle

  /** The order in which handles were closed, kept for proofs only: every
      `Close` call appends its handle. */
  class Journal {
    ghost var closed: seq<Handle>

    ghost constructor ()
      ensures closed == []
    {
      closed := [];
    }
  }

  /** The database server's replication slots, by name. */
  class ReplicationServer {
    var slots: map<string, SlotInfo>

    constructor (slots: map<string, SlotInfo>)
      ensures this.slots == slots
    {
      this.slots := slots;
    }
  }

  /** A psycopg2 connection; replication connections are opened through the
      `LogicalReplicationConnection` factory. */
  class Connection {
    const config: DbConfig
    const replication: bool
    ghost const journal: Journal
    var closed: bool

    constructor (config: DbConfig, replication: bool, ghost journal: Journal)
      ensures this.config == config && this.replication == replication && this.journal == journal
      ensures !closed
    {
      this.config := config;
      this.replication := replication;
      this.journal := journal;
      closed := false;
    }

    /** The handle this connection is in the journal. */
    function Tag(): (h: Handle) {
      if replication then ReplicationConnectionHandle else ConnectionHandle
    }

    /** `close()`; closing a closed connection leaves it closed. */
    method Close()
      modifies this, journal
      ensures closed
      ensures journal.closed == old(journal.closed) + [Tag()]
    {
      closed := true;
      journal.closed := journal.closed + [Tag()];
    }
  }

  /** The cursor of a replication connection. */
  class ReplicationCursor {
    const connection: Connection
    const server: ReplicationServer
    ghost const journal: Journal
    var closed: bool

    constructor (connection: Connection, server: ReplicationServer, ghost journal: Journal)
      ensures this.connection == connection && this.server == server && this.journal == journal
      ensures !closed
    {
      this.connection := connection;
      this.server := server;
      this.journal := journal;
      closed := false;
    }

    /** Neither the cursor nor its connection has been closed. A call on an
        unusable cursor raises psycopg2's `InterfaceError`. */
    predicate Usable()
      reads this, connection
    {
      !closed && !connection.closed
    }

    method Close()
      modifies this, journal
      ensures closed
      ensures journal.closed == old(journal.closed) + [ReplicationCursorHandle]
    {
      closed := true;
      journal.closed := journal.closed + [ReplicationCursorHandle];
    }

    /** `create_replication_slot(name, slot_type, output_plugin)`. */
    method CreateReplicationSlot(name: string, slotType: SlotType, outputPlugin: Option<string>,
                                 fault: Option<DbError>)
      returns (r: Outcome)
      modifies server
      ensures !Usable() ==> r == Raised(InterfaceError)
      ensures Usable() && fault.Some? ==> r == Raised(fault.value)
      ensures Usable() && fault.None? && name in old(server.slots) ==> r == Raised(SlotAlreadyExists)
      ensures Usable() && fault.None? && name !in old(server.slots) ==> r == Returned
      ensures server.slots == if r == Returned then old(server.slots)[name := SlotInfo(slotType, outputPlugin)]
                              else old(server.slots)
    {
      if !Usable() {
        r := Raised(InterfaceError);
      } else if fault.Some? {
        r := Raised(fault.value);
      } else if name in server.slots {
        r := Raised(SlotAlreadyExists);
      } else {
        server.slots := server.slots[name := SlotInfo(slotType, outputPlugin)];
        r := Returned;
      }
    }

    /** `drop_replication_slot(name)`. */
    method DropReplicationSlot(name: string, fault: Option<DbError>) returns (r: Outcome)
      modifies server
      ensures !Usable() ==> r == Raised(InterfaceError)
      ensures Usable() && fault.Some? ==> r == Raised(fault.value)
      ensures Usable() && fault.None? && name !in old(server.slots) ==> r == Raised(SlotDoesNotExist)
      ensures Usable() && fault.None? && name in old(server.slots) ==> r == Returned
      ensures server.slots == if r == Returned then old(server.slots) - {name} else old(server.slots)
    {
      if !Usable() {
        r := Raised(InterfaceError);
      } else if fault.Some? {
        r := Raised(fault.value);
      } else if name !in server.slots {
        r := Raised(SlotDoesNotExist);
      } else {
        server.slots := server.slots - {name};
        r := Returned;
      }
    }
  }
}
