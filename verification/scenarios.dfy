/** Worked cases of the dialogue handlers on a small directory with the
    shape of the shipped one: a floor key with a leading space, a floor
    selected with different letter case, and a room id that occurs more
    than once on a floor.
 */
module Scenarios {
  import opened Optional
  import opened Text
  import opened Dialogue

  const ABlock: Block :=
    Block("a block", [
      Floor(" a block Ground Floor", [
        Room("A-G-01", "Placement Room", "From the main entrance, take 1st left. It's the first room.")]),
      Floor("a block 1st Floor", [
        Room("A-1-01", "LH 101", "Turn Right after the stairs.")])])

  const BBlock: Block :=
    Block("b block", [
      Floor("b block Ground Floor", [
        Room("B-G-01", "Reception", "From the main entrance, go straight."),
        Room("B-G-02", "Placement Cell", "From the main entrance, go straight beside reception."),
        Room("B-G-01", "Chairman's Chamber", "From the main entrance, go straight and turn right.")])])

  const SampleMap: CampusMap := [ABlock, BBlock]

  const SampleDirections: Directions := [
    Direction("main gate", "You are at the Main Gate. Go straight to reach the main campus area."),
    Direction("a block", "From the Main Gate, go straight and take the first left near the parking area."),
    Direction("canteen", "From the Main Gate, go straight and take right.")]

  /** The a-block ground floor key starts with a space, so no block key
      starts it and its button always answers "Invalid block selected.". */
  lemma LeadingSpaceFloorIsUnreachable()
    ensures FloorReplies(SampleMap, SampleDirections, " a block Ground Floor")
            == [Message(InvalidBlock, NoWidget, false)]
  {
    var q := " a block Ground Floor";
    assert Lower(q)[0] == ' ';
    assert Lower("a block")[0] == 'a' && Lower("b block")[0] == 'b';
    assert forall j :: 0 <= j < |SampleMap| ==> !StartsWithIgnoringCase(q, SampleMap[j].key);
    UnprefixedFloorUnreachable(SampleMap, SampleDirections, q);
  }

  /** The a-block first floor key does start with its block key, so its
      button offers that floor's rooms. */
  lemma FirstFloorIsReachable()
    ensures var r := FloorReplies(SampleMap, SampleDirections, "a block 1st Floor");
            |r| == 2 && r[1].widget == RoomOptions("a block 1st Floor", ABlock.floors[1].rooms)
  {
    assert Lower("a block") == "a block";
    assert Lower("a block 1st Floor")[..7] == "a block";
    FloorSelectRoundTrip(SampleMap, SampleDirections, 0, 1);
  }

  lemma GroundFloorUpToCase()
    ensures Lower("b block Ground Floor") == Lower("b block ground floor")
  {
  }

  lemma LowerGroundFloorSelectsB()
    ensures !StartsWithIgnoringCase("b block ground floor", ABlock.key)
    ensures StartsWithIgnoringCase("b block ground floor", BBlock.key)
  {
    var q := "b block ground floor";
    assert Lower(q)[0] == 'b' && Lower("a block")[0] == 'a';
    assert Lower("b block") == Lower(q)[..7];
  }

  /** A floor selector that differs from the stored key only in case
      resolves to that floor: block by prefix and floor by equality, both
      ignoring case. */
  lemma FloorSelectIgnoresCase()
    ensures var r := FloorReplies(SampleMap, SampleDirections, "b block ground floor");
            |r| == 2 && r[1] == Message(RoomPrompt, RoomOptions("b block Ground Floor", BBlock.floors[0].rooms), false)
  {
    var q := "b block ground floor";
    LowerGroundFloorSelectsB();
    assert FindBlock(SampleMap, q) == Some(1);
    GroundFloorUpToCase();
    assert FindFloorEqual(BBlock.floors, q) == Some(0);
  }

  /** The third ground-floor room of the b block repeats the id of the
      first: its button answers with the first room's directions. */
  lemma DuplicateRoomIdAnswersFirstRoom()
    ensures RoomReply(SampleMap, "b block Ground Floor B-G-01")
            == Message(ToReach(BBlock.floors[0].rooms[0], "b block Ground Floor"), NoWidget, false)
  {
    var payload := "b block Ground Floor" + " " + "B-G-01";
    assert payload == "b block Ground Floor B-G-01";
    assert Lower("b block") == "b block";
    assert Lower("b block Ground Floor")[..7] == "b block";
    assert Lower(payload)[0] == 'b' && Lower("a block")[0] == 'a';
    RoomSelectRoundTrip(SampleMap, 1, 0, 2);
  }
}
