/**
 * A room of the adventure: a name, a description, the item names lying in it
 * (the only part that changes during play) and its outgoing directions.
 */
module Rooms {
  import opened Wrappers
  import opened JavaStrings
  import opened JavaCollections

  /** A directed edge: the label a player types and the name of the room it leads to. */
  datatype Direction = Direction(directionName: string, room: string)

  /** Each string lowercased, in the same order. */
  function LowerAll(xs: seq<string>): seq<string>
  {
    seq(|xs|, i requires 0 <= i < |xs| => Lower(xs[i]))
  }

  /** Some item equals `x` ignoring case. */
  predicate HasMatch(xs: seq<string>, x: string)
  {
    exists i :: 0 <= i < |xs| && EqualsIgnoreCase(xs[i], x)
  }

  /** The position of the first item that equals `x` ignoring case. */
  function FirstMatch(xs: seq<string>, x: string): (i: nat)
    requires HasMatch(xs, x)
    ensures i < |xs| && EqualsIgnoreCase(xs[i], x)
    ensures forall j :: 0 <= j < i ==> !EqualsIgnoreCase(xs[j], x)
  {
    if EqualsIgnoreCase(xs[0], x) then 0
    else
      assert HasMatch(xs[1..], x) by {
        var i :| 0 <= i < |xs| && EqualsIgnoreCase(xs[i], x);
        assert xs[1..][i - 1] == xs[i];
      }
      1 + FirstMatch(xs[1..], x)
  }

  /**
   * The item list Room.takeItem leaves behind: the first item equal to `x`
   * ignoring case is gone, every other item keeps its place and order, and
   * without such an item the list is unchanged.
   */
  function WithoutFirstMatch(xs: seq<string>, x: string): seq<string>
  {
    if HasMatch(xs, x) then xs[..FirstMatch(xs, x)] + xs[FirstMatch(xs, x) + 1..] else xs
  }

  /** The edge map Room.constructDirectionMap builds: one HashMap.put per edge, in edge order. */
  function DirectionMap(directions: seq<Direction>): map<string, string>
  {
    PutAll(DirectionEntries(directions))
  }

  /** The (lowercased label, target room) pairs, one per edge. */
  function DirectionEntries(directions: seq<Direction>): seq<(string, string)>
  {
    seq(|directions|, i requires 0 <= i < |directions| => (Lower(directions[i].directionName), directions[i].room))
  }

  class Room {
    const name: string
    const description: string
    /**
     * Whether the room was built with an item list: Gson leaves the list null
     * when the room's entry has none. takeItem and dropItem only ever replace
     * a list with a new one (and fail on a null list), so this never changes.
     */
    const listed: bool
    /** The names in the item list, in list order (empty when there is no list). */
    var items: seq<string>
    const directions: seq<Direction>

    constructor (name: string, description: string, items: Option<seq<string>>, directions: seq<Direction>)
      ensures this.name == name && this.description == description
      ensures ItemList() == items && this.directions == directions
    {
      this.name := name;
      this.description := description;
      this.listed := items.Some?;
      this.items := if items.Some? then items.value else [];
      this.directions := directions;
    }

    /** The item list as the source holds it: None for the null list. */
    function ItemList(): Option<seq<string>>
      reads this
    {
      if listed then Some(items) else None
    }

    /** Room.getDirections: the direction labels lowercased, one per edge, in edge order. */
    function GetDirections(): (r: seq<string>)
      ensures |r| == |directions|
      ensures forall i :: 0 <= i < |r| ==> r[i] == Lower(directions[i].directionName)
    {
      LowerAll(seq(|directions|, i requires 0 <= i < |directions| => directions[i].directionName))
    }

    /**
     * Room.getItems: null when the room has no item list, otherwise the items
     * lowercased, in the same order.
     */
    function GetItems(): (r: Option<seq<string>>)
      reads this
      ensures r.None? <==> !listed
      ensures r.Some? ==> |r.value| == |items|
      ensures r.Some? ==> forall i :: 0 <= i < |r.value| ==> r.value[i] == Lower(items[i])
    {
      if listed then Some(LowerAll(items)) else None
    }

    /** Room.constructDirectionMap. */
    function ConstructDirectionMap(): map<string, string>
    {
      DirectionMap(directions)
    }

    /** Room.takeItem: rebuilds the list without the first item equal to `inputItem` ignoring case. */
    method TakeItem(inputItem: string)
      requires listed
      modifies this
      ensures items == WithoutFirstMatch(old(items), inputItem)
    {
      var all := items;
      var itemsList: seq<string> := [];
      var alreadyDropped := false;
      for k := 0 to |all|
        invariant !alreadyDropped ==> itemsList == all[..k]
        invariant !alreadyDropped ==> forall j :: 0 <= j < k ==> !EqualsIgnoreCase(all[j], inputItem)
        invariant alreadyDropped ==> HasMatch(all, inputItem) && FirstMatch(all, inputItem) < k
        invariant alreadyDropped ==>
                    itemsList == all[..FirstMatch(all, inputItem)] + all[FirstMatch(all, inputItem) + 1..k]
      {
        if EqualsIgnoreCase(all[k], inputItem) && !alreadyDropped {
          alreadyDropped := true;
          assert FirstMatch(all, inputItem) == k;
        } else {
          itemsList := itemsList + [all[k]];
        }
      }
      assert all[..|all|] == all;
      items := itemsList;
    }

    /** Room.dropItem: rebuilds the list with `inputItem`, exactly as given, added at the end. */
    method DropItem(inputItem: string)
      requires listed
      modifies this
      ensures items == old(items) + [inputItem]
    {
      var all := items;
      var itemsList: seq<string> := [];
      for k := 0 to |all|
        invariant itemsList == all[..k]
      {
        itemsList := itemsList + [all[k]];
      }
      assert all[..|all|] == all;
      items := itemsList + [inputItem];
    }
  }

  // ---------------------------------------------------------------- lemmas

  /** takeItem removes exactly one item when some item matches, and none otherwise. */
  lemma {:induction false} TakeItemCount(xs: seq<string>, x: string)
    ensures |WithoutFirstMatch(xs, x)| == if HasMatch(xs, x) then |xs| - 1 else |xs|
    ensures HasMatch(xs, x) ==>
              multiset(WithoutFirstMatch(xs, x)) + multiset{xs[FirstMatch(xs, x)]} == multiset(xs)
  {
    if HasMatch(xs, x) {
      var i := FirstMatch(xs, x);
      var a, b := xs[..i], xs[i + 1..];
      assert WithoutFirstMatch(xs, x) == a + b;
      assert xs == a + [xs[i]] + b;
      assert multiset(xs) == multiset(a) + multiset{xs[i]} + multiset(b);
    }
  }

  /**
   * The test the engine makes before a take (the lowercased argument is among
   * the lowercased items) agrees with the test takeItem makes (some item equals
   * the argument ignoring case), so a take that passes the check always removes
   * an item.
   */
  lemma {:induction false} LowerMemberIffMatch(xs: seq<string>, x: string)
    ensures Lower(x) in LowerAll(xs) <==> HasMatch(xs, x)
  {
    if Lower(x) in LowerAll(xs) {
      var i :| 0 <= i < |xs| && LowerAll(xs)[i] == Lower(x);
      EqualsIgnoreCaseIff(xs[i], x);
    }
    if HasMatch(xs, x) {
      var i :| 0 <= i < |xs| && EqualsIgnoreCase(xs[i], x);
      EqualsIgnoreCaseIff(xs[i], x);
      assert LowerAll(xs)[i] == Lower(x);
    }
  }

  /** For a trimmed argument, the take rule's membership test is the case-insensitive match. */
  lemma {:induction false} TakeMatchIsListed(items: seq<string>, item: string)
    requires IsTrimmed(item)
    ensures Trim(Lower(item)) in LowerAll(items) <==> HasMatch(items, item)
  {
    TrimmedLower(item);
    LowerMemberIffMatch(items, item);
  }

  /**
   * The position takeItem removes from: an item that lowercases to the
   * lowercased argument, cut out of the list by WithoutFirstMatch.
   */
  lemma {:induction false} FirstMatchAt(xs: seq<string>, x: string) returns (i: nat)
    requires HasMatch(xs, x)
    ensures i < |xs| && Lower(xs[i]) == Lower(x)
    ensures WithoutFirstMatch(xs, x) == xs[..i] + xs[i + 1..]
  {
    i := FirstMatch(xs, x);
    EqualsIgnoreCaseIff(xs[i], x);
  }

  /** Lowercasing a list works element by element, so it distributes over concatenation. */
  lemma {:induction false} LowerAllAppend(a: seq<string>, b: seq<string>)
    ensures LowerAll(a + b) == LowerAll(a) + LowerAll(b)
  {
  }

  /** The keys of the direction map are exactly the lowercased labels getDirections lists. */
  lemma {:induction false} DirectionMapKeys(room: Room)
    ensures room.ConstructDirectionMap().Keys == set l | l in room.GetDirections()
  {
    var entries := DirectionEntries(room.directions);
    PutAllKeys(entries);
    var labels := room.GetDirections();
    assert forall l :: l in labels <==> exists i :: 0 <= i < |entries| && entries[i].0 == l by {
      forall l ensures l in labels <==> exists i :: 0 <= i < |entries| && entries[i].0 == l {
        if l in labels {
          var i :| 0 <= i < |labels| && labels[i] == l;
          assert entries[i].0 == l;
        }
      }
    }
  }

  /** When several edges share a label (ignoring case), the last of them decides where it leads. */
  lemma {:induction false} DirectionMapLastWins(directions: seq<Direction>, i: nat)
    requires i < |directions|
    requires forall j :: i < j < |directions| ==>
               Lower(directions[j].directionName) != Lower(directions[i].directionName)
    ensures Lower(directions[i].directionName) in DirectionMap(directions)
    ensures DirectionMap(directions)[Lower(directions[i].directionName)] == directions[i].room
  {
    var entries := DirectionEntries(directions);
    assert forall j :: i < j < |entries| ==> entries[j].0 != entries[i].0;
    PutAllLastWins(entries, i);
  }
}
