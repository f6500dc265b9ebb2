/**
 * The parsed world: the starting room, the ending (winning) room and the rooms.
 * `WorldFile` is the world file's content once read and parsed; `Layout`
 * is what Gson builds from it, with one Room object per listed room.
 */
module Layouts {
  import opened Wrappers
  import opened JavaCollections
  import opened Rooms

  /** One entry of the world file's `rooms` list. */
  datatype RoomDoc = RoomDoc(name: string, description: string, items: Option<seq<string>>, directions: seq<Direction>)

  /** The world file's content: any of its three fields may be missing (null). */
  datatype WorldFile = WorldFile(startingRoom: Option<string>, endingRoom: Option<string>, rooms: Option<seq<RoomDoc>>)

  /** Layout.java; the constructor and the three getters are this datatype's constructor and fields. */
  datatype Layout = Layout(startingRoom: Option<string>, endingRoom: Option<string>, rooms: Option<seq<Room>>)

  /** Why a world is refused when it is loaded. */
  datatype LoadError =
    | Unreadable           // the file could not be read or parsed
    | NoRoomAvailable
    | StartingRoomNull
    | StartingRoomMissing
    | EndingRoomNull
    | EndingRoomMissing

  /**
   * Layout.getRoomsName: an empty array when there are no rooms, otherwise
   * the room names in room order.
   */
  function RoomsName(layout: Layout): (names: seq<string>)
    ensures layout.rooms.None? ==> names == []
    ensures layout.rooms.Some? ==> |names| == |layout.rooms.value|
    ensures layout.rooms.Some? ==> forall i :: 0 <= i < |names| ==> names[i] == layout.rooms.value[i].name
  {
    match layout.rooms
    case None => []
    case Some(rs) => seq(|rs|, i requires 0 <= i < |rs| => rs[i].name)
  }

  /** The room names of the world file, or null when it lists no rooms. */
  function FileRoomNames(doc: WorldFile): Option<seq<string>>
  {
    match doc.rooms
    case None => None
    case Some(rs) => Some(seq(|rs|, i requires 0 <= i < |rs| => rs[i].name))
  }

  /** A Room object that Gson built from a room entry of the file. */
  ghost predicate BuiltFrom(room: Room, d: RoomDoc)
    reads room
  {
    room.name == d.name && room.description == d.description &&
    room.ItemList() == d.items && room.directions == d.directions
  }

  /** A layout that holds, field for field, what the file says, with one Room object per room entry. */
  ghost predicate LayoutOf(layout: Layout, doc: WorldFile)
    reads if layout.rooms.Some? then set r | r in layout.rooms.value else {}
  {
    && layout.startingRoom == doc.startingRoom
    && layout.endingRoom == doc.endingRoom
    && layout.rooms.Some? == doc.rooms.Some?
    && (layout.rooms.Some? ==>
          |layout.rooms.value| == |doc.rooms.value| &&
          forall i :: 0 <= i < |layout.rooms.value| ==> BuiltFrom(layout.rooms.value[i], doc.rooms.value[i]))
  }

  /** What Gson does with the parsed file: a fresh Room object for each room entry. */
  method Materialize(doc: WorldFile) returns (layout: Layout)
    ensures LayoutOf(layout, doc)
    ensures layout.rooms.Some? ==> forall i :: 0 <= i < |layout.rooms.value| ==> fresh(layout.rooms.value[i])
  {
    if doc.rooms.None? {
      return Layout(doc.startingRoom, doc.endingRoom, None);
    }
    var docs := doc.rooms.value;
    var rooms: seq<Room> := [];
    for i := 0 to |docs|
      invariant |rooms| == i
      invariant forall k :: 0 <= k < i ==> fresh(rooms[k]) && BuiltFrom(rooms[k], docs[k])
    {
      var r := new Room(docs[i].name, docs[i].description, docs[i].items, docs[i].directions);
      rooms := rooms + [r];
    }
    layout := Layout(doc.startingRoom, doc.endingRoom, Some(rooms));
  }

  /** The layout Gson builds has the same room names as the file. */
  lemma {:induction false} LayoutOfNames(layout: Layout, doc: WorldFile)
    requires LayoutOf(layout, doc)
    ensures FileRoomNames(doc) == if layout.rooms.None? then None else Some(RoomsName(layout))
  {
    if layout.rooms.Some? {
      var names := RoomsName(layout);
      var fileNames := FileRoomNames(doc).value;
      assert |names| == |fileNames|;
      forall i | 0 <= i < |names| ensures names[i] == fileNames[i] {
        assert BuiltFrom(layout.rooms.value[i], doc.rooms.value[i]);
      }
      assert names == fileNames;
    }
  }

  /** Every direction of every room in the file names a room of the file. */
  predicate EdgesResolve(doc: WorldFile)
  {
    doc.rooms.Some? ==>
      forall i, d :: 0 <= i < |doc.rooms.value| && d in doc.rooms.value[i].directions ==>
        exists j :: 0 <= j < |doc.rooms.value| && doc.rooms.value[j].name == d.room
  }

  /** The (name, room) pairs GameEngine.setMapLayout puts into its index, in room order. */
  function RoomEntries(rooms: seq<Room>): seq<(string, Room)>
  {
    seq(|rooms|, i requires 0 <= i < |rooms| => (rooms[i].name, rooms[i]))
  }

  /** The room index: room name to room, where a later room with the same name replaces an earlier one. */
  function RoomIndex(rooms: seq<Room>): map<string, Room>
  {
    PutAll(RoomEntries(rooms))
  }

  /**
   * The index has exactly the listed names as keys, and each key leads to a
   * listed room that carries that name.
   */
  lemma {:induction false} RoomIndexSound(rooms: seq<Room>)
    ensures RoomIndex(rooms).Keys == set i | 0 <= i < |rooms| :: rooms[i].name
    ensures forall n :: n in RoomIndex(rooms) ==> RoomIndex(rooms)[n] in rooms && RoomIndex(rooms)[n].name == n
  {
    var entries := RoomEntries(rooms);
    PutAllKeys(entries);
    PutAllFrom(entries);
    var entryKeys := set i | 0 <= i < |entries| :: entries[i].0;
    var names := set i | 0 <= i < |rooms| :: rooms[i].name;
    forall n | n in entryKeys ensures n in names {
      var i :| 0 <= i < |entries| && entries[i].0 == n;
      assert rooms[i].name == n;
    }
    forall n | n in names ensures n in entryKeys {
      var i :| 0 <= i < |rooms| && rooms[i].name == n;
      assert entries[i].0 == n;
    }
    forall n | n in RoomIndex(rooms)
      ensures RoomIndex(rooms)[n] in rooms && RoomIndex(rooms)[n].name == n
    {
      var i :| 0 <= i < |entries| && entries[i] == (n, RoomIndex(rooms)[n]);
    }
  }

  /**
   * The position of the last room entry named `n`, or -1 when no entry has
   * that name: setMapLayout puts the rooms in file order, so this is the
   * entry whose room the index keeps under `n`.
   */
  function LastEntry(docs: seq<RoomDoc>, n: string): (i: int)
    ensures -1 <= i < |docs|
    ensures 0 <= i ==> docs[i].name == n && forall j :: i < j < |docs| ==> docs[j].name != n
    ensures i < 0 ==> forall j :: 0 <= j < |docs| ==> docs[j].name != n
  {
    if docs == [] then -1
    else if docs[|docs| - 1].name == n then |docs| - 1
    else LastEntry(docs[..|docs| - 1], n)
  }

  /** The parts of a room that never change once Gson has built it agree with the room entry. */
  predicate Describes(d: RoomDoc, room: Room)
  {
    room.name == d.name && room.description == d.description &&
    room.directions == d.directions && room.listed == d.items.Some?
  }

  /** Every room of the index was built from the file's last room entry of its name. */
  ghost predicate IndexBuiltFrom(roomsMap: map<string, Room>, doc: WorldFile)
    reads roomsMap.Values
  {
    && doc.rooms.Some?
    && forall n {:trigger LastEntry(doc.rooms.value, n)} :: n in roomsMap ==>
         0 <= LastEntry(doc.rooms.value, n) && BuiltFrom(roomsMap[n], doc.rooms.value[LastEntry(doc.rooms.value, n)])
  }

  /**
   * Every room of the index agrees, in name, description, directions and
   * whether it has an item list, with the file's last room entry of its name.
   */
  predicate IndexOfFile(roomsMap: map<string, Room>, doc: WorldFile)
  {
    && doc.rooms.Some?
    && forall n {:trigger LastEntry(doc.rooms.value, n)} :: n in roomsMap ==>
         0 <= LastEntry(doc.rooms.value, n) && Describes(doc.rooms.value[LastEntry(doc.rooms.value, n)], roomsMap[n])
  }

  /**
   * The index setMapLayout builds from the rooms Gson made of a file keeps,
   * under each name, the room built from the file's last entry of that name.
   */
  lemma {:induction false} RoomIndexBuiltFrom(layout: Layout, doc: WorldFile)
    requires LayoutOf(layout, doc) && layout.rooms.Some?
    ensures IndexBuiltFrom(RoomIndex(layout.rooms.value), doc)
    ensures IndexOfFile(RoomIndex(layout.rooms.value), doc)
  {
    var rooms := layout.rooms.value;
    var docs := doc.rooms.value;
    var entries := RoomEntries(rooms);
    RoomIndexSound(rooms);
    forall n | n in RoomIndex(rooms)
      ensures 0 <= LastEntry(docs, n) && BuiltFrom(RoomIndex(rooms)[n], docs[LastEntry(docs, n)])
    {
      var k :| 0 <= k < |rooms| && rooms[k].name == n;
      assert BuiltFrom(rooms[k], docs[k]);
      var i := LastEntry(docs, n);
      forall j | i < j < |entries| ensures entries[j].0 != entries[i].0 {
        assert BuiltFrom(rooms[j], docs[j]);
        assert BuiltFrom(rooms[i], docs[i]);
      }
      PutAllLastWins(entries, i);
      assert BuiltFrom(rooms[i], docs[i]);
    }
  }

  /** The set of room names the world file lists. */
  function NameSet(doc: WorldFile): set<string>
  {
    if doc.rooms.None? then {} else set n | n in FileRoomNames(doc).value
  }

  /** Every room of the index is filed under its own name. */
  predicate NamesFiled(roomsMap: map<string, Room>)
  {
    forall n :: n in roomsMap ==> roomsMap[n].name == n
  }

  /** Every room entry of the file has an "items" list. */
  predicate ItemListsPresent(doc: WorldFile)
  {
    doc.rooms.Some? ==> forall i :: 0 <= i < |doc.rooms.value| ==> doc.rooms.value[i].items.Some?
  }

  /** Every room of the index has an item list. */
  predicate RoomsListed(roomsMap: map<string, Room>)
  {
    forall n :: n in roomsMap ==> roomsMap[n].listed
  }

  /** Every room of the index is filed under its own name, and every edge leads to a room of the index. */
  predicate IndexResolves(roomsMap: map<string, Room>)
  {
    forall n :: n in roomsMap ==>
      roomsMap[n].name == n && forall d :: d in roomsMap[n].directions ==> d.room in roomsMap
  }

  /**
   * The index built from a file's rooms is keyed by the file's room names
   * and files each room under its own name; when the file's edges resolve,
   * so do the index's, and when every room entry has an item list, so does
   * every room of the index.
   */
  lemma {:induction false} RoomIndexOfFile(layout: Layout, doc: WorldFile)
    requires LayoutOf(layout, doc) && layout.rooms.Some?
    ensures RoomIndex(layout.rooms.value).Keys == NameSet(doc)
    ensures NamesFiled(RoomIndex(layout.rooms.value))
    ensures EdgesResolve(doc) ==> IndexResolves(RoomIndex(layout.rooms.value))
    ensures ItemListsPresent(doc) ==> RoomsListed(RoomIndex(layout.rooms.value))
  {
    var rooms := layout.rooms.value;
    var docs := doc.rooms.value;
    var index := RoomIndex(rooms);
    RoomIndexSound(rooms);
    assert forall i :: 0 <= i < |rooms| ==> rooms[i].name == docs[i].name by {
      forall i | 0 <= i < |rooms| ensures rooms[i].name == docs[i].name {
        assert BuiltFrom(rooms[i], docs[i]);
      }
    }
    assert (set i | 0 <= i < |rooms| :: rooms[i].name) == NameSet(doc) by {
      var fileNames := FileRoomNames(doc).value;
      forall n | n in NameSet(doc) ensures n in set i | 0 <= i < |rooms| :: rooms[i].name {
        var i :| 0 <= i < |fileNames| && fileNames[i] == n;
        assert rooms[i].name == n;
      }
      forall n | n in set i | 0 <= i < |rooms| :: rooms[i].name ensures n in NameSet(doc) {
        var i :| 0 <= i < |rooms| && rooms[i].name == n;
        assert fileNames[i] == n;
      }
    }
    if EdgesResolve(doc) {
      forall n, d | n in index && d in index[n].directions ensures d.room in index {
        var i :| 0 <= i < |rooms| && rooms[i] == index[n];
        assert BuiltFrom(rooms[i], docs[i]);
        var j :| 0 <= j < |docs| && docs[j].name == d.room;
        assert d.room in NameSet(doc);
      }
    }
    if ItemListsPresent(doc) {
      forall n | n in index ensures index[n].listed {
        var i :| 0 <= i < |rooms| && rooms[i] == index[n];
        assert BuiltFrom(rooms[i], docs[i]);
      }
    }
  }
}
