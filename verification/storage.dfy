/** `MemStorage`, the in-memory store behind the game's API: five tables
    (users, characters, game states, each game state's dialogue list, save
    slots) whose ids all come from one counter.

    Every `new Date()` of the store is a tick of a logical clock: each
    create, and each update that stamps a record, moves the clock forward by
    one and uses the new reading. JavaScript `Map`s remember the order their
    keys were first set; that order is kept next to each table the store
    iterates over. */
module Storage {
  import opened Wrappers
  import opened Schema
  import opened Sequences

  /** A save slot's key. The store builds the string `${userId}-${slotNumber}`,
      which is injective on integers, so the pair carries the same information. */
  type SlotKey = (int, int)

  /** The kind of record an id of the shared counter was handed to. */
  datatype IdKind = UserId | CharacterId | GameStateId | DialogueId | SaveSlotId

  /** What the store throws. */
  datatype StoreError = NotFound(message: string)

  const UserNotFound: StoreError := NotFound("User not found")
  const GameStateNotFound: StoreError := NotFound("Game state not found")

  /** The four characters a fresh store is seeded with, in seeding order. */
  const Catalog: seq<InsertCharacter> := [
    InsertCharacter(
      "Rick Sanchez (C-137)",
      "Genius scientist and interdimensional traveler with a cynical worldview and god complex.",
      "Rick is brilliant but arrogant, nihilistic yet protective of his family. He uses science and sarcasm as shields against emotional vulnerability. Despite his claims of not caring, he deeply loves his family but struggles to express it healthily.",
      "/characters/rick.jpg",
      "#00D4AA",
      ["genius", "cynical", "alcoholic", "protective", "emotionally_distant"],
      ["neutral", "annoyed", "drunk", "excited", "angry", "vulnerable", "smug"]),
    InsertCharacter(
      "Morty Smith",
      "Rick's grandson, a nervous but good-hearted teenager who gets dragged into interdimensional adventures.",
      "Morty is anxious and insecure but has a strong moral compass. He's often overwhelmed by Rick's adventures but is growing more confident and assertive. He seeks approval while trying to do the right thing.",
      "/characters/morty.jpg",
      "#FFB800",
      ["anxious", "moral", "growing", "loyal", "insecure", "brave_when_needed"],
      ["nervous", "excited", "scared", "determined", "happy", "confused", "angry"]),
    InsertCharacter(
      "Evil Morty",
      "A cold, calculating version of Morty who has transcended his naive nature through dark experiences.",
      "Evil Morty is manipulative, intelligent, and ruthlessly pragmatic. He's tired of being underestimated and has developed a cynical worldview that rivals Rick's. He values control and independence above all else.",
      "/characters/evil-morty.png",
      "#8B0000",
      ["manipulative", "intelligent", "cold", "calculating", "independent", "ruthless"],
      ["cold", "calculating", "angry", "satisfied", "contemplative", "sinister", "disappointed"]),
    InsertCharacter(
      "Rick Prime",
      "The most dangerous Rick in the multiverse, who killed C-137 Rick's family and represents pure chaos.",
      "Rick Prime is the darkest version of Rick - completely without empathy or attachment. He's a force of pure destruction who finds joy in causing pain. He represents what Rick could become without any emotional connections.",
      "/characters/RICKPRIME.webp",
      "#FF0000",
      ["psychopathic", "destructive", "chaotic", "brilliant", "remorseless", "unpredictable"],
      ["maniacal", "cold", "amused", "violent", "bored", "excited", "contemptuous"])
  ]

  /** Id `id` was handed out by the shared counter to a record of kind `kind`. */
  ghost predicate IssuedAs(issued: seq<IdKind>, id: int, kind: IdKind) {
    1 <= id <= |issued| && issued[id - 1] == kind
  }

  /** `t` is a stamp of the store's clock, which now reads `clock`. */
  ghost predicate Stamped(t: Nullable<Time>, clock: nat) {
    t.Val? && 1 <= t.v <= clock
  }

  /** `slot` is stored under its own key, with an id and a stamp of the store. */
  ghost predicate SlotStored(key: SlotKey, slot: SaveSlot, issued: seq<IdKind>, clock: nat) {
    && key == (slot.userId, slot.slotNumber)
    && IssuedAs(issued, slot.id, SaveSlotId)
    && Stamped(slot.updatedAt, clock)
  }

  /** `d` sits in the list of its own game state, with an id and a stamp of the store. */
  ghost predicate DialogueStored(gameStateId: int, d: Dialogue, issued: seq<IdKind>, clock: nat) {
    && d.gameStateId == gameStateId
    && IssuedAs(issued, d.id, DialogueId)
    && Stamped(d.timestamp, clock)
  }

  /** The users table: its insertion order, and ids the counter gave to users. */
  ghost predicate UsersValid(users: map<int, User>, order: seq<int>, issued: seq<IdKind>) {
    IsKeyOrder(order, users) && forall k :: k in users ==> IssuedAs(issued, k, UserId)
  }

  /** The characters table: as the users', and each character holds its own key. */
  ghost predicate CharactersValid(characters: map<int, Character>, order: seq<int>, issued: seq<IdKind>) {
    && IsKeyOrder(order, characters)
    && forall k :: k in characters ==> IssuedAs(issued, k, CharacterId) && characters[k].id == k
  }

  /** The game states table: as the users', and every state stamped by the clock. */
  ghost predicate GameStatesValid(states: map<int, GameState>, order: seq<int>, issued: seq<IdKind>, clock: nat) {
    && IsKeyOrder(order, states)
    && forall k :: k in states ==> IssuedAs(issued, k, GameStateId) && Stamped(states[k].updatedAt, clock)
  }

  /** The save slots table: its insertion order, each slot under its own key. */
  ghost predicate SlotsValid(slots: map<SlotKey, SaveSlot>, order: seq<SlotKey>, issued: seq<IdKind>, clock: nat) {
    IsKeyOrder(order, slots) && forall key :: key in slots ==> SlotStored(key, slots[key], issued, clock)
  }

  /** No id is shared by two save slots. */
  ghost predicate SlotIdsUnique(slots: map<SlotKey, SaveSlot>) {
    forall j, k :: j in slots && k in slots && slots[j].id == slots[k].id ==> j == k
  }

  /** The dialogue lists: each dialogue in its own game state's list. */
  ghost predicate DialoguesValid(dialogues: map<int, seq<Dialogue>>, issued: seq<IdKind>, clock: nat) {
    forall g, d :: g in dialogues && d in dialogues[g] ==> DialogueStored(g, d, issued, clock)
  }

  /** Each dialogue occurs once in its list, and an id names one dialogue only. */
  ghost predicate DialogueIdsUnique(dialogues: map<int, seq<Dialogue>>) {
    && (forall g :: g in dialogues ==> Distinct(dialogues[g]))
    && (forall g, h, d, e :: g in dialogues && h in dialogues && d in dialogues[g] && e in dialogues[h] && d.id == e.id ==> d == e)
  }

  /** `dialogues.get(gameStateId) || []` */
  function DialoguesOf(dialogues: map<int, seq<Dialogue>>, gameStateId: int): (r: seq<Dialogue>)
    ensures gameStateId in dialogues ==> r == dialogues[gameStateId]
    ensures gameStateId !in dialogues ==> r == []
  {
    if gameStateId in dialogues then dialogues[gameStateId] else []
  }

  /** Pushing a dialogue with a new id onto its game state's list keeps the
      lists valid. */
  lemma PushedDialogueValid(
    dialogues: map<int, seq<Dialogue>>,
    issued: seq<IdKind>, issued': seq<IdKind>, clock: nat, clock': nat, d: Dialogue)
    requires DialoguesValid(dialogues, issued, clock) && DialogueIdsUnique(dialogues)
    requires issued <= issued' && clock <= clock' && |issued| < d.id
    requires DialogueStored(d.gameStateId, d, issued', clock')
    ensures DialoguesValid(dialogues[d.gameStateId := DialoguesOf(dialogues, d.gameStateId) + [d]], issued', clock')
    ensures DialogueIdsUnique(dialogues[d.gameStateId := DialoguesOf(dialogues, d.gameStateId) + [d]])
  {
    var g := d.gameStateId;
    var list := DialoguesOf(dialogues, g);
    var dialogues' := dialogues[g := list + [d]];
    assert forall e :: e in list ==> e.id != d.id;
    assert Distinct(list + [d]);
    forall h, e | h in dialogues' && e in dialogues'[h]
      ensures DialogueStored(h, e, issued', clock') && (e.id == d.id ==> e == d)
    {
      if e != d {
        assert e in dialogues[h] by {
          if h == g {
            assert e in list + [d];
          }
        }
      }
    }
  }

  /** Sorting one game state's list keeps the lists valid. */
  lemma SortedDialoguesValid(dialogues: map<int, seq<Dialogue>>, issued: seq<IdKind>, clock: nat, g: int)
    requires DialoguesValid(dialogues, issued, clock) && DialogueIdsUnique(dialogues) && g in dialogues
    ensures DialoguesValid(dialogues[g := SortDesc(dialogues[g], DialogueTime)], issued, clock)
    ensures DialogueIdsUnique(dialogues[g := SortDesc(dialogues[g], DialogueTime)])
  {
    var sorted := SortDesc(dialogues[g], DialogueTime);
    DistinctPermutation(dialogues[g], sorted);
    forall d | d in sorted
      ensures d in dialogues[g]
    {
      assert multiset(sorted)[d] == multiset(dialogues[g])[d];
    }
  }

  /** Handing out more ids and moving the clock on keep every table valid. */
  lemma TablesGrow(
    users: map<int, User>, userOrder: seq<int>,
    characters: map<int, Character>, characterOrder: seq<int>,
    states: map<int, GameState>, stateOrder: seq<int>,
    slots: map<SlotKey, SaveSlot>, slotOrder: seq<SlotKey>,
    dialogues: map<int, seq<Dialogue>>,
    issued: seq<IdKind>, issued': seq<IdKind>, clock: nat, clock': nat)
    requires issued <= issued' && clock <= clock'
    requires UsersValid(users, userOrder, issued)
    requires CharactersValid(characters, characterOrder, issued)
    requires GameStatesValid(states, stateOrder, issued, clock)
    requires SlotsValid(slots, slotOrder, issued, clock)
    requires DialoguesValid(dialogues, issued, clock)
    ensures UsersValid(users, userOrder, issued')
    ensures CharactersValid(characters, characterOrder, issued')
    ensures GameStatesValid(states, stateOrder, issued', clock')
    ensures SlotsValid(slots, slotOrder, issued', clock')
    ensures DialoguesValid(dialogues, issued', clock')
    ensures forall k :: k in users || k in characters || k in states ==> k < |issued| + 1
  {
  }

  /** Storing a game state stamped after every other keeps the table valid. */
  lemma StampedStateValid(
    states: map<int, GameState>, order: seq<int>,
    issued: seq<IdKind>, issued': seq<IdKind>, clock: nat, clock': nat,
    id: int, g: GameState)
    requires GameStatesValid(states, order, issued, clock)
    requires issued <= issued' && clock < clock'
    requires IssuedAs(issued', id, GameStateId) && g.updatedAt == Val(clock')
    ensures GameStatesValid(states[id := g], if id in states then order else order + [id], issued', clock')
    ensures NewestState(states[id := g], id)
  {
    KeyOrderPut(order, states, id, g);
    var states' := states[id := g];
    forall j | j in states' && j != id
      ensures GameStateTime(states'[j]) < GameStateTime(states'[id])
    {
      assert states'[j] == states[j];
    }
  }

  /** The game states of `order` that belong to `userId`, most recently updated first. */
  function StatesNewestFirst(states: map<int, GameState>, order: seq<int>, userId: int): (r: seq<GameState>)
    requires forall j :: j in order ==> j in states
  {
    SortDesc(OwnedBy(ValuesInOrder(states, order), GameStateOwner, userId), GameStateTime)
  }

  /** The game state stored under `id` was stamped strictly after every other one. */
  ghost predicate NewestState(states: map<int, GameState>, id: int) {
    id in states && forall j :: j in states && j != id ==> GameStateTime(states[j]) < GameStateTime(states[id])
  }

  /** The game state stamped last comes first in its user's list. */
  lemma NewestStateListedFirst(states: map<int, GameState>, order: seq<int>, id: int)
    requires forall j :: j in order ==> j in states
    requires id in order && NewestState(states, id)
    ensures |StatesNewestFirst(states, order, states[id].userId)| > 0
    ensures StatesNewestFirst(states, order, states[id].userId)[0] == states[id]
  {
    forall j | j in states && j != id
      ensures GameStateTime(states[j]) < GameStateTime(states[id])
    {
    }
    assert forall j :: j in order ==> j in states;
    NewestOwnedFirst(states, order, id, GameStateOwner, GameStateTime);
  }

  /** Storing a save slot stamped after every other keeps the table valid. */
  lemma StampedSlotValid(
    slots: map<SlotKey, SaveSlot>, order: seq<SlotKey>,
    issued: seq<IdKind>, issued': seq<IdKind>, clock: nat, clock': nat,
    key: SlotKey, slot: SaveSlot)
    requires SlotsValid(slots, order, issued, clock) && SlotIdsUnique(slots)
    requires issued <= issued' && clock < clock'
    requires SlotStored(key, slot, issued', clock') && slot.updatedAt == Val(clock') && |issued| < slot.id
    ensures SlotsValid(slots[key := slot], if key in slots then order else order + [key], issued', clock')
    ensures SlotIdsUnique(slots[key := slot])
    ensures NewestSlot(slots[key := slot], key)
  {
    KeyOrderPut(order, slots, key, slot);
    var slots' := slots[key := slot];
    forall j | j in slots' && j != key
      ensures SaveSlotTime(slots'[j]) < SaveSlotTime(slots'[key])
    {
      assert slots'[j] == slots[j];
    }
  }

  /** The save slots of `order` that belong to `userId`, most recently saved first. */
  function SlotsNewestFirst(slots: map<SlotKey, SaveSlot>, order: seq<SlotKey>, userId: int): (r: seq<SaveSlot>)
    requires forall j :: j in order ==> j in slots
  {
    SortDesc(OwnedBy(ValuesInOrder(slots, order), SaveSlotOwner, userId), SaveSlotTime)
  }

  /** The save slot stored under `key` was stamped strictly after every other one. */
  ghost predicate NewestSlot(slots: map<SlotKey, SaveSlot>, key: SlotKey) {
    key in slots && forall j :: j in slots && j != key ==> SaveSlotTime(slots[j]) < SaveSlotTime(slots[key])
  }

  /** The save slot stamped last comes first in its user's list. */
  lemma NewestSlotListedFirst(slots: map<SlotKey, SaveSlot>, order: seq<SlotKey>, key: SlotKey)
    requires forall j :: j in order ==> j in slots
    requires key in order && NewestSlot(slots, key)
    ensures |SlotsNewestFirst(slots, order, slots[key].userId)| > 0
    ensures SlotsNewestFirst(slots, order, slots[key].userId)[0] == slots[key]
  {
    NewestOwnedFirst(slots, order, key, SaveSlotOwner, SaveSlotTime);
  }

  /** The four seeded characters, under ids 1 to 4, form a valid table. */
  lemma SeededCharactersValid(c1: Character, c2: Character, c3: Character, c4: Character)
    requires c1.id == 1 && c2.id == 2 && c3.id == 3 && c4.id == 4
    ensures CharactersValid(map[1 := c1, 2 := c2, 3 := c3, 4 := c4], [1, 2, 3, 4],
                            [CharacterId, CharacterId, CharacterId, CharacterId])
  {
  }

  /** `getUserByUsername`: the first user, in insertion order, whose
      username equals `username` exactly. */
  function FindUser(users: map<int, User>, order: seq<int>, username: string): (r: Option<User>)
    requires forall i :: 0 <= i < |order| ==> order[i] in users
    ensures r.None? <==> forall i :: 0 <= i < |order| ==> users[order[i]].username != username
    ensures r.Some? ==> r.value.username == username && r.value in users.Values
    decreases |order|
  {
    if order == [] then None
    else if users[order[0]].username == username then Some(users[order[0]])
    else FindUser(users, order[1..], username)
  }

  /** The user `FindUser` returns is the one at the first matching position. */
  lemma {:induction false} FindUserFirst(users: map<int, User>, order: seq<int>, username: string, i: nat)
    requires forall i :: 0 <= i < |order| ==> order[i] in users
    requires i < |order| && users[order[i]].username == username
    requires forall j :: 0 <= j < i ==> users[order[j]].username != username
    ensures FindUser(users, order, username) == Some(users[order[i]])
    decreases i
  {
    if i > 0 {
      FindUserFirst(users, order[1..], username, i - 1);
    }
  }

  /** Adding a user behind all others changes a lookup only when no earlier
      user had the name. */
  lemma {:induction false} FindUserAppend(users: map<int, User>, order: seq<int>, id: int, user: User, username: string)
    requires forall i :: 0 <= i < |order| ==> order[i] in users
    requires id !in users
    ensures FindUser(users[id := user], order + [id], username) ==
      if FindUser(users, order, username).Some? then FindUser(users, order, username)
      else if user.username == username then Some(user)
      else None
    decreases |order|
  {
    if order == [] {
      assert [id][1..] == [];
    } else {
      assert (order + [id])[1..] == order[1..] + [id];
      FindUserAppend(users, order[1..], id, user, username);
    }
  }

  /** `FindUserAppend` for every username at once. */
  lemma FindUserAppendAll(users: map<int, User>, order: seq<int>, id: int, user: User)
    requires forall i :: 0 <= i < |order| ==> order[i] in users
    requires id !in users
    ensures forall name :: (FindUser(users[id := user], order + [id], name) ==
      if FindUser(users, order, name).Some? then FindUser(users, order, name)
      else if user.username == name then Some(user)
      else None)
  {
    forall name
      ensures FindUser(users[id := user], order + [id], name) ==
        if FindUser(users, order, name).Some? then FindUser(users, order, name)
        else if user.username == name then Some(user)
        else None
    {
      FindUserAppend(users, order, id, user, name);
    }
  }

  /** `getGameState`: the first game state, in insertion order, that belongs
      to user `userId` and character `characterId`. */
  function FindGameState(states: map<int, GameState>, order: seq<int>, userId: int, characterId: int): (r: Option<GameState>)
    requires forall i :: 0 <= i < |order| ==> order[i] in states
    ensures r.None? <==> forall i :: 0 <= i < |order| ==> states[order[i]].userId != userId || states[order[i]].characterId != characterId
    ensures r.Some? ==> r.value.userId == userId && r.value.characterId == characterId && r.value in states.Values
    decreases |order|
  {
    if order == [] then None
    else if states[order[0]].userId == userId && states[order[0]].characterId == characterId then Some(states[order[0]])
    else FindGameState(states, order[1..], userId, characterId)
  }

  /** The state `FindGameState` returns is the one at the first matching position. */
  lemma {:induction false} FindGameStateFirst(states: map<int, GameState>, order: seq<int>, userId: int, characterId: int, i: nat)
    requires forall i :: 0 <= i < |order| ==> order[i] in states
    requires i < |order| && states[order[i]].userId == userId && states[order[i]].characterId == characterId
    requires forall j :: 0 <= j < i ==> states[order[j]].userId != userId || states[order[j]].characterId != characterId
    ensures FindGameState(states, order, userId, characterId) == Some(states[order[i]])
    decreases i
  {
    if i > 0 {
      FindGameStateFirst(states, order[1..], userId, characterId, i - 1);
    }
  }

  /** Adding a game state behind all others changes a lookup only when no
      earlier state belonged to the pair. */
  lemma {:induction false} FindGameStateAppend(states: map<int, GameState>, order: seq<int>, id: int, state: GameState, userId: int, characterId: int)
    requires forall i :: 0 <= i < |order| ==> order[i] in states
    requires id !in states
    ensures FindGameState(states[id := state], order + [id], userId, characterId) ==
      if FindGameState(states, order, userId, characterId).Some? then FindGameState(states, order, userId, characterId)
      else if state.userId == userId && state.characterId == characterId then Some(state)
      else None
    decreases |order|
  {
    if order == [] {
      assert [id][1..] == [];
    } else {
      assert (order + [id])[1..] == order[1..] + [id];
      FindGameStateAppend(states, order[1..], id, state, userId, characterId);
    }
  }

  /** `FindGameStateAppend` for every user and character at once. */
  lemma FindGameStateAppendAll(states: map<int, GameState>, order: seq<int>, id: int, state: GameState)
    requires forall i :: 0 <= i < |order| ==> order[i] in states
    requires id !in states
    ensures forall u, c :: (FindGameState(states[id := state], order + [id], u, c) ==
      if FindGameState(states, order, u, c).Some? then FindGameState(states, order, u, c)
      else if state.userId == u && state.characterId == c then Some(state)
      else None)
  {
    forall u, c
      ensures FindGameState(states[id := state], order + [id], u, c) ==
        if FindGameState(states, order, u, c).Some? then FindGameState(states, order, u, c)
        else if state.userId == u && state.characterId == c then Some(state)
        else None
    {
      FindGameStateAppend(states, order, id, state, u, c);
    }
  }

  /** `getDialogues`' answer for a stored list: the list sorted newest first,
      cut by `slice(0, limit)`. What is left out is never newer than what is
      returned. */
  function DialoguePage(stored: seq<Dialogue>, limit: int): (page: seq<Dialogue>)
    ensures SortedDesc(page, DialogueTime)
    ensures multiset(page) <= multiset(stored)
    ensures |page| == SliceEnd(|stored|, limit)
    ensures 0 <= limit ==> |page| <= limit
    ensures forall d, e :: d in page && e in multiset(stored) - multiset(page) ==> DialogueTime(d) >= DialogueTime(e)
  {
    var sorted := SortDesc(stored, DialogueTime);
    var n := SliceEnd(|sorted|, limit);
    PrefixHoldsNewest(sorted, n, DialogueTime);
    sorted[..n]
  }

  /** A limit that covers the whole list returns every stored dialogue. */
  lemma WholePage(stored: seq<Dialogue>, limit: int)
    requires |stored| <= limit
    ensures multiset(DialoguePage(stored, limit)) == multiset(stored)
  {
    var page := DialoguePage(stored, limit);
    assert |page| == |stored|;
    assert |multiset(stored) - multiset(page)| == |multiset(stored)| - |multiset(page)|;
    assert multiset(stored) - multiset(page) == multiset{};
  }

  /** A dialogue stamped after every stored one heads every page. */
  lemma NewestDialogueFirst(stored: seq<Dialogue>, d: Dialogue)
    requires forall e :: e in stored ==> DialogueTime(e) < DialogueTime(d)
    ensures forall limit :: 1 <= limit ==>
      |DialoguePage(stored + [d], limit)| >= 1 && DialoguePage(stored + [d], limit)[0] == d
  {
    var list := stored + [d];
    var sorted := SortDesc(list, DialogueTime);
    assert d in multiset(list);
    assert d in sorted by {
      assert multiset(sorted)[d] == multiset(list)[d];
    }
    forall y | y in sorted && y != d
      ensures DialogueTime(y) < DialogueTime(d)
    {
      assert y in multiset(list) by {
        assert multiset(sorted)[y] == multiset(list)[y];
      }
      assert y in stored;
    }
    StrictNewestFirst(sorted, d, DialogueTime);
    forall limit | 1 <= limit
      ensures |DialoguePage(list, limit)| >= 1 && DialoguePage(list, limit)[0] == d
    {
      assert DialoguePage(list, limit) == sorted[..SliceEnd(|sorted|, limit)];
    }
  }

  class MemStorage {
    var users: map<int, User>
    var userOrder: seq<int>
    var characters: map<int, Character>
    var characterOrder: seq<int>
    var gameStates: map<int, GameState>
    var gameStateOrder: seq<int>
    var dialogues: map<int, seq<Dialogue>>
    var saveSlots: map<SlotKey, SaveSlot>
    var slotOrder: seq<SlotKey>
    var nextId: int
    /** The last reading of the logical clock; 0 before the first stamp. */
    var clock: nat
    /** `issued[i - 1]` is the kind of record id `i` was handed to. */
    ghost var issued: seq<IdKind>

    ghost predicate Valid()
      reads this
    {
      && nextId == |issued| + 1
      && UsersValid(users, userOrder, issued)
      && CharactersValid(characters, characterOrder, issued)
      && GameStatesValid(gameStates, gameStateOrder, issued, clock)
      && SlotsValid(saveSlots, slotOrder, issued, clock) && SlotIdsUnique(saveSlots)
      && DialoguesValid(dialogues, issued, clock) && DialogueIdsUnique(dialogues)
    }

    /** The shared counter hands each id out once: the keys of the users,
      characters and game states tables, the ids of the save slots and the
      ids of the dialogues never meet, no two slots and no two stored
      dialogues share an id, and every one of them is below the next id. */
    lemma IdsUnique()
      requires Valid()
      ensures forall k :: k in users ==> k !in characters && k !in gameStates && 1 <= k < nextId
      ensures forall k :: k in characters ==> k !in gameStates && 1 <= k < nextId
      ensures forall k :: k in gameStates ==> 1 <= k < nextId
      ensures forall key :: key in saveSlots ==>
        && saveSlots[key].id !in users && saveSlots[key].id !in characters && saveSlots[key].id !in gameStates
        && 1 <= saveSlots[key].id < nextId
      ensures forall j, k :: j in saveSlots && k in saveSlots && j != k ==> saveSlots[j].id != saveSlots[k].id
      ensures forall g, d :: g in dialogues && d in dialogues[g] ==>
        d.id !in users && d.id !in characters && d.id !in gameStates && 1 <= d.id < nextId
      ensures forall key, g, d :: key in saveSlots && g in dialogues && d in dialogues[g] ==> saveSlots[key].id != d.id
      ensures forall g, i, j :: g in dialogues && 0 <= i < j < |dialogues[g]| ==> dialogues[g][i].id != dialogues[g][j].id
      ensures forall g, h, d, e :: g in dialogues && h in dialogues && g != h && d in dialogues[g] && e in dialogues[h] ==>
        d.id != e.id
    {
    }

    /** A fresh store: empty tables and the four seeded characters, ids 1 to 4. */
    constructor ()
      ensures Valid()
      ensures users == map[] && userOrder == []
      ensures gameStates == map[] && gameStateOrder == []
      ensures dialogues == map[] && saveSlots == map[] && slotOrder == []
      ensures characterOrder == [1, 2, 3, 4]
      ensures characters == map[1 := NewCharacter(1, Catalog[0], 1), 2 := NewCharacter(2, Catalog[1], 2),
                                3 := NewCharacter(3, Catalog[2], 3), 4 := NewCharacter(4, Catalog[3], 4)]
      ensures nextId == 5 && clock == 4 && issued == [CharacterId, CharacterId, CharacterId, CharacterId]
    {
      // `initializeCharacters`: each record takes the next id and a fresh
      // stamp, and the four are then stored in that order.
      var rick := NewCharacter(1, Catalog[0], 1);
      var morty := NewCharacter(2, Catalog[1], 2);
      var evilMorty := NewCharacter(3, Catalog[2], 3);
      var rickPrime := NewCharacter(4, Catalog[3], 4);
      SeededCharactersValid(rick, morty, evilMorty, rickPrime);
      users, userOrder := map[], [];
      characters := map[1 := rick, 2 := morty, 3 := evilMorty, 4 := rickPrime];
      characterOrder := [1, 2, 3, 4];
      gameStates, gameStateOrder := map[], [];
      dialogues := map[];
      saveSlots, slotOrder := map[], [];
      nextId, clock, issued := 5, 4, [CharacterId, CharacterId, CharacterId, CharacterId];
    }

    /** `getUser` */
    function GetUser(id: int): (r: Option<User>)
      reads this
      ensures r.Some? <==> id in users
      ensures r.Some? ==> r.value == users[id]
    {
      if id in users then Some(users[id]) else None
    }

    /** `getUserByUsername`: scans the users in insertion order and returns
      the first whose username matches. */
    method GetUserByUsername(username: string) returns (r: Option<User>)
      requires Valid()
      ensures r == FindUser(users, userOrder, username)
    {
      var i := 0;
      while i < |userOrder|
        invariant 0 <= i <= |userOrder|
        invariant FindUser(users, userOrder[i..], username) == FindUser(users, userOrder, username)
      {
        assert userOrder[i..][1..] == userOrder[i + 1..];
        var user := users[userOrder[i]];
        if user.username == username {
          return Some(user);
        }
        i := i + 1;
      }
      return None;
    }

    /** `createUser`: a new id from the counter; the password, email and
      profile picture of the insert are not used. */
    method CreateUser(insertUser: InsertUser) returns (user: User)
      requires Valid()
      modifies this
      ensures Valid()
      ensures user.id == old(nextId) && nextId == old(nextId) + 1 && issued == old(issued) + [UserId]
      ensures user.id !in old(users) && user.id !in old(characters) && user.id !in old(gameStates)
      ensures clock == old(clock) + 1 && user.createdAt == Val(clock)
      ensures user.username == insertUser.username
      ensures user.password == "" && user.email == Null && user.profilePicture == Null && user.globalSettings == Null
      ensures users == old(users)[user.id := user] && userOrder == old(userOrder) + [user.id]
      ensures GetUser(user.id) == Some(user)
      ensures forall name :: (FindUser(users, userOrder, name) ==
        if old(FindUser(users, userOrder, name)).Some? then old(FindUser(users, userOrder, name))
        else if user.username == name then Some(user)
        else None)
      ensures unchanged(this`characters, this`characterOrder, this`gameStates, this`gameStateOrder)
      ensures unchanged(this`dialogues, this`saveSlots, this`slotOrder)
    {
      user := User(nextId, insertUser.username, "", Null, Null, Null, Val(clock + 1));
      KeyOrderAppend(userOrder, users, user.id, user);
      FindUserAppendAll(users, userOrder, user.id, user);
      TablesGrow(users, userOrder, characters, characterOrder, gameStates, gameStateOrder,
                 saveSlots, slotOrder, dialogues, issued, issued + [UserId], clock, clock + 1);
      clock, nextId, issued := clock + 1, nextId + 1, issued + [UserId];
      users, userOrder := users[user.id := user], userOrder + [user.id];
    }

    /** `updateUser`: throws for an unknown id; otherwise a shallow merge of
      `updates` over the stored user. */
    method UpdateUser(id: int, updates: UserPatch) returns (r: Result<User, StoreError>)
      requires Valid()
      modifies this
      ensures Valid()
      ensures r.Failure? <==> id !in old(users)
      ensures r.Failure? ==> r.error == UserNotFound && users == old(users)
      ensures r.Success? ==> r.value == MergeUser(old(users[id]), updates) && users == old(users)[id := r.value]
      ensures r.Success? ==> GetUser(id) == Some(r.value)
      ensures unchanged(this`userOrder, this`characters, this`characterOrder, this`gameStates, this`gameStateOrder)
      ensures unchanged(this`dialogues, this`saveSlots, this`slotOrder, this`nextId, this`clock, this`issued)
    {
      if id !in users {
        return Failure(UserNotFound);
      }
      var updated := MergeUser(users[id], updates);
      users := users[id := updated];
      return Success(updated);
    }

    /** `getAllCharacters`: every character, in insertion order. */
    function GetAllCharacters(): (r: seq<Character>)
      reads this
      requires Valid()
      ensures |r| == |characterOrder| == |characters|
      ensures forall i :: 0 <= i < |r| ==> r[i] == characters[characterOrder[i]] && r[i].id == characterOrder[i]
    {
      KeyOrderLength(characterOrder, characters);
      ValuesInOrder(characters, characterOrder)
    }

    /** `getCharacter` */
    function GetCharacter(id: int): (r: Option<Character>)
      reads this
      requires Valid()
      ensures r.Some? <==> id in characters
      ensures r.Some? ==> r.value == characters[id] && r.value.id == id
    {
      if id in characters then Some(characters[id]) else None
    }

    /** `createCharacter`: the insert's fields under a new id, stamped now. */
    method CreateCharacter(character: InsertCharacter) returns (created: Character)
      requires Valid()
      modifies this
      ensures Valid()
      ensures created.id == old(nextId) && nextId == old(nextId) + 1 && issued == old(issued) + [CharacterId]
      ensures created.id !in old(users) && created.id !in old(characters) && created.id !in old(gameStates)
      ensures clock == old(clock) + 1 && created == NewCharacter(created.id, character, clock)
      ensures characters == old(characters)[created.id := created]
      ensures characterOrder == old(characterOrder) + [created.id]
      ensures unchanged(this`users, this`userOrder, this`gameStates, this`gameStateOrder)
      ensures unchanged(this`dialogues, this`saveSlots, this`slotOrder)
    {
      TablesGrow(users, userOrder, characters, characterOrder, gameStates, gameStateOrder,
                 saveSlots, slotOrder, dialogues, issued, issued + [CharacterId], clock, clock + 1);
      clock := clock + 1;
      created := NewCharacter(nextId, character, clock);
      KeyOrderAppend(characterOrder, characters, created.id, created);
      nextId := nextId + 1;
      issued := issued + [CharacterId];
      characters := characters[created.id := created];
      characterOrder := characterOrder + [created.id];
    }

    /** `getGameState`: scans the game states in insertion order and returns
      the first that belongs to the user and the character. */
    method GetGameState(userId: int, characterId: int) returns (r: Option<GameState>)
      requires Valid()
      ensures r == FindGameState(gameStates, gameStateOrder, userId, characterId)
    {
      var i := 0;
      while i < |gameStateOrder|
        invariant 0 <= i <= |gameStateOrder|
        invariant FindGameState(gameStates, gameStateOrder[i..], userId, characterId)
               == FindGameState(gameStates, gameStateOrder, userId, characterId)
      {
        assert gameStateOrder[i..][1..] == gameStateOrder[i + 1..];
        var gameState := gameStates[gameStateOrder[i]];
        if gameState.userId == userId && gameState.characterId == characterId {
          return Some(gameState);
        }
        i := i + 1;
      }
      return None;
    }

    /** `createGameState`: a new id, the insert's fields with the defaults for
      the ones it leaves out, stamped now. */
    method CreateGameState(gameState: InsertGameState) returns (created: GameState)
      requires Valid()
      modifies this
      ensures Valid()
      ensures created.id == old(nextId) && nextId == old(nextId) + 1 && issued == old(issued) + [GameStateId]
      ensures created.id !in old(users) && created.id !in old(characters) && created.id !in old(gameStates)
      ensures clock == old(clock) + 1 && created == NewGameState(created.id, gameState, clock)
      ensures gameStates == old(gameStates)[created.id := created]
      ensures gameStateOrder == old(gameStateOrder) + [created.id]
      ensures forall u, c :: (FindGameState(gameStates, gameStateOrder, u, c) ==
        if old(FindGameState(gameStates, gameStateOrder, u, c)).Some? then old(FindGameState(gameStates, gameStateOrder, u, c))
        else if created.userId == u && created.characterId == c then Some(created)
        else None)
      ensures GetUnlockedBackstories(created.id) == OrElse(gameState.unlockedBackstories, [])
      ensures NewestState(gameStates, created.id)
      ensures unchanged(this`users, this`userOrder, this`characters, this`characterOrder)
      ensures unchanged(this`dialogues, this`saveSlots, this`slotOrder)
    {
      created := NewGameState(nextId, gameState, clock + 1);
      StampedStateValid(gameStates, gameStateOrder, issued, issued + [GameStateId], clock, clock + 1, created.id, created);
      TablesGrow(users, userOrder, characters, characterOrder, gameStates, gameStateOrder,
                 saveSlots, slotOrder, dialogues, issued, issued + [GameStateId], clock, clock + 1);
      FindGameStateAppendAll(gameStates, gameStateOrder, created.id, created);
      clock, nextId, issued := clock + 1, nextId + 1, issued + [GameStateId];
      gameStates, gameStateOrder := gameStates[created.id := created], gameStateOrder + [created.id];
    }

    /** `updateGameState`: throws for an unknown id; otherwise a shallow merge
      of `updates` over the stored state, stamped now. */
    method UpdateGameState(id: int, updates: GameStatePatch) returns (r: Result<GameState, StoreError>)
      requires Valid()
      modifies this
      ensures Valid()
      ensures r.Failure? <==> id !in old(gameStates)
      ensures r.Failure? ==> r.error == GameStateNotFound && unchanged(this)
      ensures r.Success? ==>
        && clock == old(clock) + 1
        && r.value == MergeGameState(old(gameStates[id]), updates, clock)
        && gameStates == old(gameStates)[id := r.value]
        && NewestState(gameStates, id)
      ensures unchanged(this`users, this`userOrder, this`characters, this`characterOrder, this`gameStateOrder)
      ensures unchanged(this`dialogues, this`saveSlots, this`slotOrder, this`nextId, this`issued)
    {
      if id !in gameStates {
        return Failure(GameStateNotFound);
      }
      var updated := MergeGameState(gameStates[id], updates, clock + 1);
      TablesGrow(users, userOrder, characters, characterOrder, gameStates, gameStateOrder,
                 saveSlots, slotOrder, dialogues, issued, issued, clock, clock + 1);
      StampedStateValid(gameStates, gameStateOrder, issued, issued, clock, clock + 1, id, updated);
      clock, gameStates := clock + 1, gameStates[id := updated];
      return Success(updated);
    }

    /** `getUserGameStates`: exactly the user's game states, most recently
      updated first. */
    function GetUserGameStates(userId: int): (r: seq<GameState>)
      reads this
      requires Valid()
      ensures SortedDesc(r, GameStateTime)
      ensures forall g :: (multiset(r)[g] ==
        if g.userId == userId then multiset(ValuesInOrder(gameStates, gameStateOrder))[g] else 0)
    {
      StatesNewestFirst(gameStates, gameStateOrder, userId)
    }

    /** The game state stamped last heads its user's list. */
    lemma NewestStateHeadsList(id: int)
      requires Valid() && NewestState(gameStates, id)
      ensures |GetUserGameStates(gameStates[id].userId)| > 0
      ensures GetUserGameStates(gameStates[id].userId)[0] == gameStates[id]
    {
      NewestStateListedFirst(gameStates, gameStateOrder, id);
    }

    /** `getDialogues`: at most `limit` dialogues of the game state, newest
      first. The stored list itself is sorted newest first in passing. */
    method GetDialogues(gameStateId: int, limit: int := 50) returns (page: seq<Dialogue>)
      requires Valid()
      modifies this
      ensures Valid()
      ensures page == DialoguePage(old(DialoguesOf(dialogues, gameStateId)), limit)
      ensures gameStateId in old(dialogues) ==>
        dialogues == old(dialogues)[gameStateId := SortDesc(old(dialogues[gameStateId]), DialogueTime)]
      ensures gameStateId !in old(dialogues) ==> dialogues == old(dialogues)
      ensures SortedDesc(DialoguesOf(dialogues, gameStateId), DialogueTime)
      ensures multiset(DialoguesOf(dialogues, gameStateId)) == old(multiset(DialoguesOf(dialogues, gameStateId)))
      ensures unchanged(this`users, this`userOrder, this`characters, this`characterOrder, this`gameStates)
      ensures unchanged(this`gameStateOrder, this`saveSlots, this`slotOrder, this`nextId, this`clock, this`issued)
    {
      var stored := DialoguesOf(dialogues, gameStateId);
      var sorted := SortDesc(stored, DialogueTime);
      if gameStateId in dialogues {
        SortedDialoguesValid(dialogues, issued, clock, gameStateId);
        dialogues := dialogues[gameStateId := sorted];
      }
      page := sorted[..SliceEnd(|sorted|, limit)];
    }

    /** `createDialogue`: a new record, stamped now, pushed onto the end of its
      game state's list. */
    method CreateDialogue(dialogue: InsertDialogue) returns (created: Dialogue)
      requires Valid()
      modifies this
      ensures Valid()
      ensures created.id == old(nextId) && nextId == old(nextId) + 1 && issued == old(issued) + [DialogueId]
      ensures clock == old(clock) + 1 && created.timestamp == Val(clock)
      ensures created.gameStateId == dialogue.gameStateId && created.speaker == dialogue.speaker
      ensures created.message == dialogue.message && created.messageType == dialogue.messageType
      ensures created.affectionChange == OrNull(dialogue.affectionChange)
      ensures created.emotionTriggered == OrNull(dialogue.emotionTriggered)
      ensures created.backstoryId == OrNull(dialogue.backstoryId)
      ensures dialogues == old(dialogues)[dialogue.gameStateId := old(DialoguesOf(dialogues, dialogue.gameStateId)) + [created]]
      ensures forall limit :: 1 <= limit ==>
        |DialoguePage(DialoguesOf(dialogues, created.gameStateId), limit)| >= 1 &&
        DialoguePage(DialoguesOf(dialogues, created.gameStateId), limit)[0] == created
      ensures unchanged(this`users, this`userOrder, this`characters, this`characterOrder, this`gameStates)
      ensures unchanged(this`gameStateOrder, this`saveSlots, this`slotOrder)
    {
      created := Dialogue(
        nextId,
        dialogue.gameStateId,
        dialogue.speaker,
        dialogue.message,
        dialogue.messageType,
        OrNull(dialogue.affectionChange),
        OrNull(dialogue.emotionTriggered),
        OrNull(dialogue.backstoryId),
        Val(clock + 1));
      var existing := DialoguesOf(dialogues, dialogue.gameStateId);
      NewestDialogueFirst(existing, created);
      PushedDialogueValid(dialogues, issued, issued + [DialogueId], clock, clock + 1, created);
      TablesGrow(users, userOrder, characters, characterOrder, gameStates, gameStateOrder,
                 saveSlots, slotOrder, dialogues, issued, issued + [DialogueId], clock, clock + 1);
      clock, nextId, issued := clock + 1, nextId + 1, issued + [DialogueId];
      dialogues := dialogues[dialogue.gameStateId := existing + [created]];
    }

    /** `getSaveSlots`: exactly the user's save slots, most recently saved first. */
    function GetSaveSlots(userId: int): (r: seq<SaveSlot>)
      reads this
      requires Valid()
      ensures SortedDesc(r, SaveSlotTime)
      ensures forall s :: (multiset(r)[s] ==
        if s.userId == userId then multiset(ValuesInOrder(saveSlots, slotOrder))[s] else 0)
    {
      SlotsNewestFirst(saveSlots, slotOrder, userId)
    }

    /** The save slot stamped last heads its user's list. */
    lemma NewestSlotHeadsList(key: SlotKey)
      requires Valid() && NewestSlot(saveSlots, key)
      ensures |GetSaveSlots(key.0)| > 0 && GetSaveSlots(key.0)[0] == saveSlots[key]
    {
      NewestSlotListedFirst(saveSlots, slotOrder, key);
    }

    /** `getSaveSlot`: the slot stored under the user's slot number, if any. */
    function GetSaveSlot(userId: int, slotNumber: int): (r: Option<SaveSlot>)
      reads this
      requires Valid()
      ensures r.Some? <==> (userId, slotNumber) in saveSlots
      ensures r.Some? ==> r.value == saveSlots[(userId, slotNumber)]
      ensures r.Some? ==> r.value.userId == userId && r.value.slotNumber == slotNumber
    {
      if (userId, slotNumber) in saveSlots then Some(saveSlots[(userId, slotNumber)]) else None
    }

    /** `createSaveSlot`: a new slot, stamped now, stored under the user's slot
      number in place of whatever was there. */
    method CreateSaveSlot(saveSlot: InsertSaveSlot) returns (created: SaveSlot)
      requires Valid()
      modifies this
      ensures Valid()
      ensures created.id == old(nextId) && nextId == old(nextId) + 1 && issued == old(issued) + [SaveSlotId]
      ensures clock == old(clock) + 1
      ensures created == NewSaveSlot(created.id, saveSlot, clock)
      ensures saveSlots == old(saveSlots)[(saveSlot.userId, saveSlot.slotNumber) := created]
      ensures slotOrder == if (saveSlot.userId, saveSlot.slotNumber) in old(saveSlots) then old(slotOrder)
                           else old(slotOrder) + [(saveSlot.userId, saveSlot.slotNumber)]
      ensures GetSaveSlot(saveSlot.userId, saveSlot.slotNumber) == Some(created)
      ensures NewestSlot(saveSlots, (saveSlot.userId, saveSlot.slotNumber))
      ensures unchanged(this`users, this`userOrder, this`characters, this`characterOrder, this`gameStates)
      ensures unchanged(this`gameStateOrder, this`dialogues)
    {
      created := NewSaveSlot(nextId, saveSlot, clock + 1);
      var key := (created.userId, created.slotNumber);
      StampedSlotValid(saveSlots, slotOrder, issued, issued + [SaveSlotId], clock, clock + 1, key, created);
      TablesGrow(users, userOrder, characters, characterOrder, gameStates, gameStateOrder,
                 saveSlots, slotOrder, dialogues, issued, issued + [SaveSlotId], clock, clock + 1);
      clock, nextId, issued := clock + 1, nextId + 1, issued + [SaveSlotId];
      if key !in saveSlots {
        slotOrder := slotOrder + [key];
      }
      saveSlots := saveSlots[key := created];
    }

    /** `deleteSaveSlot`: removes the user's slot number if present; an absent
      slot is no error. */
    method DeleteSaveSlot(userId: int, slotNumber: int)
      requires Valid()
      modifies this
      ensures Valid()
      ensures saveSlots == old(saveSlots) - {(userId, slotNumber)}
      ensures slotOrder == RemoveKey(old(slotOrder), (userId, slotNumber))
      ensures (userId, slotNumber) !in old(saveSlots) ==> unchanged(this)
      ensures GetSaveSlot(userId, slotNumber) == None
      ensures unchanged(this`users, this`userOrder, this`characters, this`characterOrder, this`gameStates)
      ensures unchanged(this`gameStateOrder, this`dialogues, this`nextId, this`clock, this`issued)
    {
      var key := (userId, slotNumber);
      KeyOrderRemove(slotOrder, saveSlots, key);
      assert key !in saveSlots ==> saveSlots - {key} == saveSlots;
      saveSlots := saveSlots - {key};
      slotOrder := RemoveKey(slotOrder, key);
    }

    /** `unlockBackstory`: throws for an unknown game state; an id already
      unlocked leaves the store as it is; a new one is appended and the state
      stamped now. */
    method UnlockBackstory(gameStateId: int, backstoryId: string) returns (r: Result<GameState, StoreError>)
      requires Valid()
      modifies this
      ensures Valid()
      ensures r.Failure? <==> gameStateId !in old(gameStates)
      ensures r.Failure? ==> r.error == GameStateNotFound && unchanged(this)
      ensures r.Success? && backstoryId in old(GetUnlockedBackstories(gameStateId)) ==>
        r.value == old(gameStates[gameStateId]) && unchanged(this)
      ensures r.Success? && backstoryId !in old(GetUnlockedBackstories(gameStateId)) ==>
        && clock == old(clock) + 1
        && r.value == old(gameStates[gameStateId]).(
             unlockedBackstories := Val(old(GetUnlockedBackstories(gameStateId)) + [backstoryId]),
             updatedAt := Val(clock))
        && gameStates == old(gameStates)[gameStateId := r.value]
        && NewestState(gameStates, gameStateId)
      ensures old(GetUnlockedBackstories(gameStateId)) <= GetUnlockedBackstories(gameStateId)
      ensures r.Success? ==> backstoryId in GetUnlockedBackstories(gameStateId)
      ensures unchanged(this`users, this`userOrder, this`characters, this`characterOrder, this`gameStateOrder)
      ensures unchanged(this`dialogues, this`saveSlots, this`slotOrder, this`nextId, this`issued)
    {
      if gameStateId !in gameStates {
        return Failure(GameStateNotFound);
      }
      var gameState := gameStates[gameStateId];
      var current := OrEmpty(gameState.unlockedBackstories);
      if backstoryId !in current {
        var updated := gameState.(unlockedBackstories := Val(current + [backstoryId]), updatedAt := Val(clock + 1));
        TablesGrow(users, userOrder, characters, characterOrder, gameStates, gameStateOrder,
                   saveSlots, slotOrder, dialogues, issued, issued, clock, clock + 1);
        StampedStateValid(gameStates, gameStateOrder, issued, issued, clock, clock + 1, gameStateId, updated);
        clock, gameStates := clock + 1, gameStates[gameStateId := updated];
        return Success(updated);
      }
      return Success(gameState);
    }

    /** `getUnlockedBackstories`: the state's list, or the empty list for an
      unknown state or a null list. */
    function GetUnlockedBackstories(gameStateId: int): (r: seq<string>)
      reads this
      ensures gameStateId !in gameStates ==> r == []
      ensures gameStateId in gameStates ==> r == OrEmpty(gameStates[gameStateId].unlockedBackstories)
    {
      if gameStateId in gameStates then OrEmpty(gameStates[gameStateId].unlockedBackstories) else []
    }
  }
}
