/** The dialogue handlers of `ActionProvider`: a location query answered
    through the matcher, then floor selection and room selection by ordered
    lookups in the campus directory (block -> floor -> rooms). Every
    handler only appends to the chat transcript.
 */
module Dialogue {
  import opened Optional
  import opened Text
  import opened Matcher

  // =====================================================================
  // The directory, as ordered association lists (key insertion order)
  // =====================================================================

  datatype Room = Room(id: string, name: string, direction: string)

  datatype Floor = Floor(key: string, rooms: seq<Room>)

  datatype Block = Block(key: string, floors: seq<Floor>)

  /** One entry of the phrase -> direction dictionary. */
  datatype Direction = Direction(phrase: string, text: string)

  type CampusMap = seq<Block>

  type Directions = seq<Direction>

  /** `Object.keys(campusMap)` */
  function BlockKeys(campusMap: CampusMap): (r: seq<string>)
    ensures |r| == |campusMap|
    ensures forall i :: 0 <= i < |campusMap| ==> r[i] == campusMap[i].key
  {
    seq(|campusMap|, i requires 0 <= i < |campusMap| => campusMap[i].key)
  }

  /** `Object.keys(locationDirections)` */
  function PhraseKeys(directions: Directions): (r: seq<string>)
    ensures |r| == |directions|
    ensures forall i :: 0 <= i < |directions| ==> r[i] == directions[i].phrase
  {
    seq(|directions|, i requires 0 <= i < |directions| => directions[i].phrase)
  }

  /** `locationDirections[key]`, or nothing when the key is absent. */
  function LookupDirection(directions: Directions, key: string): (r: Option<string>)
    ensures r.Some? <==> key in PhraseKeys(directions)
    ensures r.Some? ==> exists i :: 0 <= i < |directions| && directions[i] == Direction(key, r.value)
  {
    match FindIndex(directions, (d: Direction) => d.phrase == key)
    case None =>
      assert forall i :: 0 <= i < |directions| ==> PhraseKeys(directions)[i] == directions[i].phrase;
      None
    case Some(i) =>
      assert PhraseKeys(directions)[i] == key;
      Some(directions[i].text)
  }

  /** `str.toLowerCase().startsWith(prefix.toLowerCase())`: the prefix is
      no longer than the string and agrees with its start character by
      character once both are lower-cased. */
  predicate StartsWithIgnoringCase(str: string, prefix: string)
    ensures StartsWithIgnoringCase(str, prefix) <==>
            |prefix| <= |str| && forall i :: 0 <= i < |prefix| ==> LowerChar(prefix[i]) == LowerChar(str[i])
  {
    Lower(prefix) <= Lower(str)
  }

  /** `Object.keys(campusMap).find(key => query.toLowerCase().startsWith(key.toLowerCase()))`:
      the first block whose key starts the query, ignoring case. */
  function FindBlock(campusMap: CampusMap, query: string): (r: Option<nat>)
    ensures r.Some? ==> r.value < |campusMap| && StartsWithIgnoringCase(query, campusMap[r.value].key)
    ensures r.Some? ==> forall j :: 0 <= j < r.value ==> !StartsWithIgnoringCase(query, campusMap[j].key)
    ensures r.None? <==> forall j :: 0 <= j < |campusMap| ==> !StartsWithIgnoringCase(query, campusMap[j].key)
  {
    FindIndex(campusMap, (b: Block) => StartsWithIgnoringCase(query, b.key))
  }

  /** The first floor whose key equals the query, ignoring case. */
  function FindFloorEqual(floors: seq<Floor>, query: string): (r: Option<nat>)
    ensures r.Some? ==> r.value < |floors| && Lower(floors[r.value].key) == Lower(query)
    ensures r.Some? ==> forall j :: 0 <= j < r.value ==> Lower(floors[j].key) != Lower(query)
    ensures r.None? <==> forall j :: 0 <= j < |floors| ==> Lower(floors[j].key) != Lower(query)
  {
    FindIndex(floors, (f: Floor) => Lower(f.key) == Lower(query))
  }

  /** The first floor whose key occurs in the query, ignoring case. */
  function FindFloorWithin(floors: seq<Floor>, query: string): (r: Option<nat>)
    ensures r.Some? ==> r.value < |floors| && Contains(Lower(query), Lower(floors[r.value].key))
    ensures r.Some? ==> forall j :: 0 <= j < r.value ==> !Contains(Lower(query), Lower(floors[j].key))
    ensures r.None? <==> forall j :: 0 <= j < |floors| ==> !Contains(Lower(query), Lower(floors[j].key))
  {
    FindIndex(floors, (f: Floor) => Contains(Lower(query), Lower(f.key)))
  }

  /** `floorRooms.find(room => room.id === roomID)`: the first room with that
      id, compared exactly. */
  function FindRoom(rooms: seq<Room>, id: string): (r: Option<nat>)
    ensures r.Some? ==> r.value < |rooms| && rooms[r.value].id == id
    ensures r.Some? ==> forall j :: 0 <= j < r.value ==> rooms[j].id != id
    ensures r.None? <==> forall j :: 0 <= j < |rooms| ==> rooms[j].id != id
  {
    FindIndex(rooms, (room: Room) => room.id == id)
  }

  // =====================================================================
  // Messages
  // =====================================================================

  /** The widget a bot message asks the chat UI to render, with its
      payload: the floor buttons of a block, or the room buttons of a
      floor. */
  datatype Widget = NoWidget | FloorOptions(block: string) | RoomOptions(floor: string, rooms: seq<Room>)

  /** A bot message: its text, its widget and the `parse` option. */
  datatype Message = Message(text: string, widget: Widget, parse: bool)

  const Apology: string :=
    "Sorry, I couldn't find a good match for that location. Please try searching on the map or using a clearer keyword."

  const InvalidBlock: string := "Invalid block selected."

  const RoomPrompt: string := "Now, please select the room or section you are looking for:"

  const NoRoomsForThisFloor: string := "No rooms found for this floor. Please try again."

  /** `locationDirections[m] || "Found **m**! ..."`: the stored direction,
      unless it is missing or empty. */
  function DirectionFor(directions: Directions, matched: string): (r: string)
    ensures (LookupDirection(directions, matched).Some? && LookupDirection(directions, matched).value != "")
              ==> r == LookupDirection(directions, matched).value
    ensures (LookupDirection(directions, matched).None? || LookupDirection(directions, matched).value == "")
              ==> r == "Found **" + matched + "**! You can search it on the map for navigation."
  {
    match LookupDirection(directions, matched)
    case Some(text) =>
      if text != "" then text
      else "Found **" + matched + "**! You can search it on the map for navigation."
    case None => "Found **" + matched + "**! You can search it on the map for navigation."
  }

  /** The floor prompt names the block in upper case. */
  function FloorPrompt(block: string): (r: string)
    ensures Contains(r, Upper(block))
  {
    ContainsBetween("Which floor in **", Upper(block), "** are you looking for?");
    "Which floor in **" + Upper(block) + "** are you looking for?"
  }

  /** The no-floor message quotes the selector as given. */
  function NoSpecificRooms(floorQuery: string): (r: string)
    ensures Contains(r, floorQuery)
  {
    ContainsBetween("No specific rooms found for the ", floorQuery, ". Please try another floor or block.");
    "No specific rooms found for the " + floorQuery + ". Please try another floor or block."
  }

  /** The context line names the floor and quotes the block's stored
      direction. */
  function HeadingTo(floorKey: string, context: string): (r: string)
    ensures Contains(r, floorKey) && Contains(r, context)
  {
    var head := "Great! You are heading to the **" + floorKey + "**. (Context: ";
    ContainsBetween("Great! You are heading to the **", floorKey, "**. (Context: ");
    ContainsLeft(head, context, floorKey);
    ContainsLeft(head + context, ").", floorKey);
    ContainsBetween(head, context, ").");
    head + context + ")."
  }

  /** The room answer names the room and its floor and quotes the room's
      directions. */
  function ToReach(room: Room, floorKey: string): (r: string)
    ensures Contains(r, room.name) && Contains(r, floorKey) && Contains(r, room.direction)
  {
    var head := "To reach **" + room.name + "** in ";
    var tail := ",\n\n            Directions: " + room.direction;
    ContainsBetween("To reach **", room.name, "** in ");
    ContainsLeft(head, floorKey, room.name);
    ContainsLeft(head + floorKey, tail, room.name);
    ContainsBetween(head, floorKey, tail);
    ContainsSelf(room.direction);
    ContainsRight(",\n\n            Directions: ", room.direction, room.direction);
    ContainsRight(head + floorKey, tail, room.direction);
    head + floorKey + tail
  }

  /** The unknown-room message quotes the id that was looked up. */
  function UnknownRoomId(roomId: string): (r: string)
    ensures Contains(r, roomId)
  {
    ContainsBetween("Error: Could not find directions for room ID ", roomId, ".");
    "Error: Could not find directions for room ID " + roomId + "."
  }

  /** `locationDirections[blockKey] || ""`: the stored direction of a
      block, or the empty string when there is none. */
  function ContextFor(directions: Directions, blockKey: string): (r: string)
    ensures LookupDirection(directions, blockKey).Some? ==> r == LookupDirection(directions, blockKey).value
    ensures LookupDirection(directions, blockKey).None? ==> r == ""
  {
    match LookupDirection(directions, blockKey)
    case Some(text) => text
    case None => ""
  }

  // =====================================================================
  // What each handler appends
  // =====================================================================

  /** A JavaScript truthy match: present and not the empty string. */
  predicate Truthy(matched: Option<string>) {
    matched.Some? && matched.value != ""
  }

  /** `handleQuery`'s messages for a match: the apology when there is none;
      for a block key, the direction and then the floor prompt whose
      payload is that block; for any other match, the direction alone. */
  function QueryReplies(campusMap: CampusMap, directions: Directions, matched: Option<string>): (r: seq<Message>)
    ensures !Truthy(matched) ==> r == [Message(Apology, NoWidget, false)]
    ensures Truthy(matched) ==>
              |r| == (if matched.value in BlockKeys(campusMap) then 2 else 1)
              && r[0] == Message(DirectionFor(directions, matched.value), NoWidget, true)
    ensures Truthy(matched) && matched.value in BlockKeys(campusMap) ==>
              r[1].widget == FloorOptions(matched.value)
  {
    if !Truthy(matched) then [Message(Apology, NoWidget, false)]
    else
      var m := matched.value;
      var directionMessage := Message(DirectionFor(directions, m), NoWidget, true);
      if m in BlockKeys(campusMap) then
        [directionMessage, Message(FloorPrompt(m), FloorOptions(m), true)]
      else
        [Message(directionMessage.text, NoWidget, true)]
  }

  /** `handleFloorSelect`'s messages: the invalid-block message when no
      block key starts the selector (ignoring case) or the key found is the
      empty string, which JavaScript treats as not found; otherwise the
      replies for that block. */
  function FloorReplies(campusMap: CampusMap, directions: Directions, floorQuery: string): (r: seq<Message>)
    ensures var fb := FindBlock(campusMap, floorQuery);
            (fb.None? || campusMap[fb.value].key == "") ==> r == [Message(InvalidBlock, NoWidget, false)]
    ensures var fb := FindBlock(campusMap, floorQuery);
            (fb.Some? && campusMap[fb.value].key != "") ==> r == BlockFloorReplies(campusMap[fb.value], directions, floorQuery)
    ensures |r| == 1 || |r| == 2
    ensures |r| == 2 <==>
              exists b, f :: 0 <= b < |campusMap| && 0 <= f < |campusMap[b].floors|
                && campusMap[b].key != "" && campusMap[b].floors[f].key != ""
                && StartsWithIgnoringCase(floorQuery, campusMap[b].key)
                && Lower(campusMap[b].floors[f].key) == Lower(floorQuery)
                && FindBlock(campusMap, floorQuery) == Some(b)
                && FindFloorEqual(campusMap[b].floors, floorQuery) == Some(f)
  {
    match FindBlock(campusMap, floorQuery)
    case None => [Message(InvalidBlock, NoWidget, false)]
    case Some(b) =>
      if campusMap[b].key == "" then [Message(InvalidBlock, NoWidget, false)]
      else BlockFloorReplies(campusMap[b], directions, floorQuery)
  }

  /** The rest of `handleFloorSelect` once the block is known: the
      no-specific-rooms message when no floor key of the block equals the
      selector (ignoring case) or the floor key found is empty; otherwise
      the context line naming the floor with the block's stored direction,
      then the room prompt carrying that floor's key and rooms. */
  function BlockFloorReplies(block: Block, directions: Directions, floorQuery: string): (r: seq<Message>)
    ensures var ff := FindFloorEqual(block.floors, floorQuery);
            (ff.None? || block.floors[ff.value].key == "") ==>
              r == [Message(NoSpecificRooms(floorQuery), NoWidget, false)]
    ensures var ff := FindFloorEqual(block.floors, floorQuery);
            (ff.Some? && block.floors[ff.value].key != "") ==>
              var floor := block.floors[ff.value];
              r == [Message(HeadingTo(floor.key, ContextFor(directions, block.key)), NoWidget, false),
                    Message(RoomPrompt, RoomOptions(floor.key, floor.rooms), false)]
  {
    match FindFloorEqual(block.floors, floorQuery)
    case None => [Message(NoSpecificRooms(floorQuery), NoWidget, false)]
    case Some(f) =>
      var floor := block.floors[f];
      if floor.key == "" then [Message(NoSpecificRooms(floorQuery), NoWidget, false)]
      else
        [Message(HeadingTo(floor.key, ContextFor(directions, block.key)), NoWidget, false),
         Message(RoomPrompt, RoomOptions(floor.key, floor.rooms), false)]
  }

  /** `handleRoomSelect`'s single message: the room id is the last
      space-separated field; the block is the first whose key starts the
      query, the floor the first of that block whose key occurs in it, the
      room the first with exactly that id. A room's directions are quoted
      only for such a room. */
  function RoomReply(campusMap: CampusMap, roomQuery: string): (r: Message)
    ensures r.widget == NoWidget && !r.parse
    ensures var fb := FindBlock(campusMap, roomQuery);
            (fb.None? || campusMap[fb.value].key == "") ==> r.text == InvalidBlock
    ensures var fb := FindBlock(campusMap, roomQuery);
            (fb.Some? && campusMap[fb.value].key != "") ==> r == BlockRoomReply(campusMap[fb.value], roomQuery)
  {
    match FindBlock(campusMap, roomQuery)
    case None => Message(InvalidBlock, NoWidget, false)
    case Some(b) =>
      if campusMap[b].key == "" then Message(InvalidBlock, NoWidget, false)
      else BlockRoomReply(campusMap[b], roomQuery)
  }

  /** The rest of `handleRoomSelect` once the block is known: the
      no-rooms message when no floor key of the block occurs in the query
      (ignoring case) or the floor key found is empty; otherwise the
      directions of the first room of that floor whose id is the query's
      last field, or the unknown-id message quoting that field. */
  function BlockRoomReply(block: Block, roomQuery: string): (r: Message)
    ensures r.widget == NoWidget && !r.parse
    ensures var ff := FindFloorWithin(block.floors, roomQuery);
            (ff.None? || block.floors[ff.value].key == "") ==> r.text == NoRoomsForThisFloor
    ensures var ff := FindFloorWithin(block.floors, roomQuery);
            (ff.Some? && block.floors[ff.value].key != "") ==>
              var floor := block.floors[ff.value];
              var fr := FindRoom(floor.rooms, LastField(roomQuery));
              (fr.Some? ==> r.text == ToReach(floor.rooms[fr.value], floor.key))
              && (fr.None? ==> r.text == UnknownRoomId(LastField(roomQuery)))
  {
    match FindFloorWithin(block.floors, roomQuery)
    case None => Message(NoRoomsForThisFloor, NoWidget, false)
    case Some(f) =>
      var floor := block.floors[f];
      if floor.key == "" then Message(NoRoomsForThisFloor, NoWidget, false)
      else
        var roomId := LastField(roomQuery);
        match FindRoom(floor.rooms, roomId)
        case Some(k) => Message(ToReach(floor.rooms[k], floor.key), NoWidget, false)
        case None => Message(UnknownRoomId(roomId), NoWidget, false)
  }

  // =====================================================================
  // The handlers
  // =====================================================================

  /** The chat bot's action provider: the directory and the phrase
      dictionary it was configured with, and the transcript it appends to
      (the `messages` of the chat state that `setState` updates). */
  class ActionProvider {
    const campusMap: CampusMap
    const locationDirections: Directions
    var messages: seq<Message>

    constructor (campusMap: CampusMap, locationDirections: Directions, messages: seq<Message>)
      ensures this.campusMap == campusMap && this.locationDirections == locationDirections
      ensures this.messages == messages
    {
      this.campusMap := campusMap;
      this.locationDirections := locationDirections;
      this.messages := messages;
    }

    /** The candidates of `handleQuery`: the phrase keys, then the block
        keys. */
    function AllKnownLocations(): (r: seq<string>)
      ensures |r| == |locationDirections| + |campusMap|
      ensures forall i :: 0 <= i < |locationDirections| ==> r[i] == locationDirections[i].phrase
      ensures forall i :: 0 <= i < |campusMap| ==> r[|locationDirections| + i] == campusMap[i].key
    {
      PhraseKeys(locationDirections) + BlockKeys(campusMap)
    }

    /** `updateChatbotState`: append one message. */
    method UpdateChatbotState(message: Message)
      modifies this`messages
      ensures messages == old(messages) + [message]
    {
      messages := messages + [message];
    }

    /** `handleQuery`: match the query against the known locations with the
        default threshold and append the replies. */
    method HandleQuery(query: string)
      modifies this`messages
      ensures messages == old(messages)
                + QueryReplies(campusMap, locationDirections,
                               BestMatch(query, AllKnownLocations(), DefaultThreshold))
    {
      var allKnownLocations := PhraseKeys(locationDirections) + BlockKeys(campusMap);
      var matchedLocation := FindBestMatch(query, allKnownLocations, DefaultThreshold);
      if matchedLocation.Some? && matchedLocation.value != "" {
        var m := matchedLocation.value;
        var isBlockMatch := m in BlockKeys(campusMap);
        var initialDirection := DirectionFor(locationDirections, m);
        var directionMessage := Message(initialDirection, NoWidget, true);
        if isBlockMatch {
          var floorMessage := Message(FloorPrompt(m), FloorOptions(m), true);
          messages := messages + [directionMessage, floorMessage];
        } else {
          var message := Message(directionMessage.text, NoWidget, true);
          messages := messages + [message];
        }
      } else {
        var message := Message(Apology, NoWidget, false);
        messages := messages + [message];
      }
    }

    /** `handleFloorSelect`: resolve the block by prefix and the floor by
        equality, both ignoring case, and append the replies. */
    method HandleFloorSelect(floorQuery: string)
      modifies this`messages
      ensures messages == old(messages) + FloorReplies(campusMap, locationDirections, floorQuery)
    {
      var blockKey := FindBlock(campusMap, floorQuery);
      // `!blockKey`: no key found, or the empty key
      if blockKey.None? || campusMap[blockKey.value].key == "" {
        UpdateChatbotState(Message(InvalidBlock, NoWidget, false));
        return;
      }
      var block := campusMap[blockKey.value];
      var floorKey := FindFloorEqual(block.floors, floorQuery);
      if floorKey.None? || block.floors[floorKey.value].key == "" {
        UpdateChatbotState(Message(NoSpecificRooms(floorQuery), NoWidget, false));
        return;
      }
      var floorData := block.floors[floorKey.value];
      var initialDirection := ContextFor(locationDirections, block.key);
      var directionMsg := Message(HeadingTo(floorData.key, initialDirection), NoWidget, false);
      var message := Message(RoomPrompt, RoomOptions(floorData.key, floorData.rooms), false);
      assert FloorReplies(campusMap, locationDirections, floorQuery) == [directionMsg, message];
      UpdateChatbotState(directionMsg);
      UpdateChatbotState(message);
    }

    /** `handleRoomSelect`: take the last field as the room id, resolve
        block, floor and room, and append exactly one message. */
    method HandleRoomSelect(roomQuery: string)
      modifies this`messages
      ensures messages == old(messages) + [RoomReply(campusMap, roomQuery)]
    {
      var roomId := LastField(roomQuery);
      var blockKey := FindBlock(campusMap, roomQuery);
      // `!blockKey`: no key found, or the empty key
      if blockKey.None? || campusMap[blockKey.value].key == "" {
        UpdateChatbotState(Message(InvalidBlock, NoWidget, false));
        return;
      }
      var block := campusMap[blockKey.value];
      var floorKey := FindFloorWithin(block.floors, roomQuery);
      if floorKey.None? || block.floors[floorKey.value].key == "" {
        UpdateChatbotState(Message(NoRoomsForThisFloor, NoWidget, false));
        return;
      }
      var floorRooms := block.floors[floorKey.value].rooms;
      var roomDetail := FindRoom(floorRooms, roomId);
      var answer := if roomDetail.Some?
                    then ToReach(floorRooms[roomDetail.value], block.floors[floorKey.value].key)
                    else UnknownRoomId(roomId);
      UpdateChatbotState(Message(answer, NoWidget, false));
    }
  }

  // =====================================================================
  // Properties of the handlers
  // =====================================================================

  /** With the default threshold the apology is sent exactly when the
      matcher finds nothing (an empty-string match, which the handler would
      also treat as none, cannot occur). */
  lemma ApologyIffNoMatch(campusMap: CampusMap, directions: Directions, query: string, candidates: seq<string>)
    ensures var matched := BestMatch(query, candidates, DefaultThreshold);
            (QueryReplies(campusMap, directions, matched) == [Message(Apology, NoWidget, false)] <==> matched.None?)
  {
    var matched := BestMatch(query, candidates, DefaultThreshold);
    NeverEmptyMatch(query, candidates, DefaultThreshold);
    if matched.Some? {
      var r := QueryReplies(campusMap, directions, matched);
      assert r[0].parse;
    }
  }

  /** A match on a block key is answered with that block's direction and a
      floor prompt for that very block. */
  lemma BlockMatchOffersFloors(campusMap: CampusMap, directions: Directions, b: nat)
    requires b < |campusMap| && campusMap[b].key != ""
    ensures var r := QueryReplies(campusMap, directions, Some(campusMap[b].key));
            |r| == 2 && r[1].widget == FloorOptions(campusMap[b].key)
            && r[0].text == DirectionFor(directions, campusMap[b].key)
  {
    assert BlockKeys(campusMap)[b] == campusMap[b].key;
  }

  /** The floor buttons call `handleFloorSelect` with a floor key of the
      block. That succeeds, offering exactly that floor's rooms, when the
      key starts with its block's key (ignoring case), no earlier block key
      starts it, and no earlier floor of the block has the same key up to
      case. */
  lemma FloorSelectRoundTrip(campusMap: CampusMap, directions: Directions, b: nat, f: nat)
    requires b < |campusMap| && f < |campusMap[b].floors|
    requires campusMap[b].key != "" && campusMap[b].floors[f].key != ""
    requires StartsWithIgnoringCase(campusMap[b].floors[f].key, campusMap[b].key)
    requires forall j :: 0 <= j < b ==> !StartsWithIgnoringCase(campusMap[b].floors[f].key, campusMap[j].key)
    requires forall g :: 0 <= g < f ==> Lower(campusMap[b].floors[g].key) != Lower(campusMap[b].floors[f].key)
    ensures var floor := campusMap[b].floors[f];
            var r := FloorReplies(campusMap, directions, floor.key);
            |r| == 2 && r[1] == Message(RoomPrompt, RoomOptions(floor.key, floor.rooms), false)
  {
    var key := campusMap[b].floors[f].key;
    assert FindBlock(campusMap, key) == Some(b);
    assert FindFloorEqual(campusMap[b].floors, key) == Some(f);
  }

  /** A floor key whose lower-cased form is not started by any block key
      (such as one with a leading space) can never be selected: the
      selection is answered with the invalid-block message. */
  lemma UnprefixedFloorUnreachable(campusMap: CampusMap, directions: Directions, floorQuery: string)
    requires forall j :: 0 <= j < |campusMap| ==> !StartsWithIgnoringCase(floorQuery, campusMap[j].key)
    ensures FloorReplies(campusMap, directions, floorQuery) == [Message(InvalidBlock, NoWidget, false)]
    ensures RoomReply(campusMap, floorQuery) == Message(InvalidBlock, NoWidget, false)
  {
  }

  /** The room buttons call `handleRoomSelect` with `${floor} ${room.id}`.
      When the block and floor resolve back to the button's own (its block
      key starts the floor key, no earlier block key starts the payload, no
      earlier floor key of the block occurs in it) and the id has no space,
      the reply gives the directions of the FIRST room of that floor with
      that id, which is the button's room unless an earlier room shares its
      id. */
  lemma RoomSelectRoundTrip(campusMap: CampusMap, b: nat, f: nat, k: nat)
    requires b < |campusMap| && f < |campusMap[b].floors| && k < |campusMap[b].floors[f].rooms|
    requires campusMap[b].key != "" && campusMap[b].floors[f].key != ""
    requires var floor := campusMap[b].floors[f];
             StartsWithIgnoringCase(floor.key, campusMap[b].key)
    requires var floor := campusMap[b].floors[f];
             var payload := floor.key + " " + floor.rooms[k].id;
             forall j :: 0 <= j < b ==> !StartsWithIgnoringCase(payload, campusMap[j].key)
    requires var floor := campusMap[b].floors[f];
             var payload := floor.key + " " + floor.rooms[k].id;
             forall g :: 0 <= g < f ==> !Contains(Lower(payload), Lower(campusMap[b].floors[g].key))
    requires ' ' !in campusMap[b].floors[f].rooms[k].id
    ensures var floor := campusMap[b].floors[f];
            var payload := floor.key + " " + floor.rooms[k].id;
            var first := FindRoom(floor.rooms, floor.rooms[k].id);
            first.Some? && first.value <= k
            && floor.rooms[first.value].id == floor.rooms[k].id
            && RoomReply(campusMap, payload) == Message(ToReach(floor.rooms[first.value], floor.key), NoWidget, false)
  {
    var floor := campusMap[b].floors[f];
    var id := floor.rooms[k].id;
    var payload := floor.key + " " + id;
    LowerAppend(floor.key + " ", id);
    LowerAppend(floor.key, " ");
    assert Lower(payload) == Lower(floor.key) + Lower(" ") + Lower(id);
    assert Lower(campusMap[b].key) <= Lower(payload);
    assert FindBlock(campusMap, payload) == Some(b);
    assert OccursAt(Lower(payload), Lower(floor.key), 0);
    assert FindFloorWithin(campusMap[b].floors, payload) == Some(f);
    LastFieldAfterSpace(floor.key, id);
    assert LastField(payload) == id;
  }
}
