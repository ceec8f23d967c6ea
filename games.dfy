/**
 * Game records (types/game.ts): the `Game5M` / `Game6M` shapes and the
 * `gaemSchema` rules a new game's request body must pass.
 */
module Games {
  import opened Wrappers

  /** A user id, as the text of its 24-digit hexadecimal ObjectId. */
  type Id = string

  datatype GameType = FiveM | SixM

  /** How a game type is written in keys and request bodies. */
  function TypeText(t: GameType): (s: string)
    ensures |s| == 2 && s[1] == 'M'
  {
    match t
    case FiveM => "5M"
    case SixM => "6M"
  }

  const GAME_TYPES: set<string> := {"5M", "6M"}

  const GIRU_TYPES: set<string> := {"spade", "diamond", "heart", "clover", "nogi"}

  predicate IsHexChar(c: char) {
    '0' <= c <= '9' || 'a' <= c <= 'f' || 'A' <= c <= 'F'
  }

  /** Joi's `string().hex().length(24)`. */
  predicate HexId(s: string) {
    |s| == 24 && forall i :: 0 <= i < |s| ==> IsHexChar(s[i])
  }

  /**
   * The fields of a stored game that the score and statistics computations
   * read. `friend` is `None` for a null friend, `died` is `None` when the
   * record has no died player.
   */
  datatype Game = Game(
    gameType: GameType,
    win: bool,
    isNogi: bool,
    isRun: bool,
    president: Id,
    friend: Option<Id>,
    oppositions: seq<Id>,
    died: Option<Id>)

  function OptionList(o: Option<Id>): (s: seq<Id>)
    ensures |s| <= 1
    ensures forall x :: x in s <==> o == Some(x)
  {
    if o.Some? then [o.value] else []
  }

  /** The ids in the game's role slots, in the order president, friend, oppositions, died. */
  function SlotIds(g: Game): (s: seq<Id>)
    ensures |s| == 1 + |OptionList(g.friend)| + |g.oppositions| + |OptionList(g.died)|
  {
    [g.president] + OptionList(g.friend) + g.oppositions + OptionList(g.died)
  }

  predicate Distinct(s: seq<Id>) {
    forall i, j :: 0 <= i < j < |s| ==> s[i] != s[j]
  }

  /**
   * A game as the schema admits it and as the data model intends it: every
   * id a 24-digit hex string, four oppositions without a friend and three
   * with one, a died player exactly in six-member games, and (a rule the
   * schema does NOT check) no id in two slots.
   */
  predicate WellFormed(g: Game) {
    && (forall i :: 0 <= i < |SlotIds(g)| ==> HexId(SlotIds(g)[i]))
    && Distinct(SlotIds(g))
    && |g.oppositions| == (if g.friend.None? then 4 else 3)
    && (g.died.Some? <==> g.gameType == SixM)
  }

  /** A new game's request body; `None` stands for an absent field (and for `null` where the schema treats both alike). */
  datatype GameBody = GameBody(
    gameType: Option<string>,
    giru: Option<string>,
    promise: Option<int>,
    win: Option<bool>,
    run: Option<bool>,
    president: Option<string>,
    friend: Option<string>,
    oppositions: Option<seq<string>>,
    died: Option<string>,
    otherKeys: set<string>)

  // One predicate per key of the schema, in the schema's key order.

  predicate TypeOk(b: GameBody) { b.gameType.Some? && b.gameType.value in GAME_TYPES }

  predicate GiruOk(b: GameBody) { b.giru.None? || b.giru.value in GIRU_TYPES }

  predicate PromiseOk(b: GameBody) { b.promise.Some? && 13 <= b.promise.value <= 20 }

  predicate WinOk(b: GameBody) { b.win.Some? }

  predicate RunOk(b: GameBody) { b.run.Some? }

  predicate PresidentOk(b: GameBody) { b.president.Some? && HexId(b.president.value) }

  /** Optional, null allowed and the default. */
  predicate FriendOk(b: GameBody) { b.friend.None? || HexId(b.friend.value) }

  /** Not required; when present, its length depends on whether the friend is null. */
  predicate OppositionsOk(b: GameBody) {
    b.oppositions.None? ||
    (&& |b.oppositions.value| == (if b.friend.None? then 4 else 3)
     && forall i :: 0 <= i < |b.oppositions.value| ==> HexId(b.oppositions.value[i]))
  }

  /** Required in six-member games; otherwise only null (the default) is allowed. */
  predicate DiedOk(b: GameBody) {
    if b.gameType == Some("6M") then b.died.Some? && HexId(b.died.value) else b.died.None?
  }

  /** The whole schema: every key's rule, and no keys the schema does not name. */
  predicate ValidBody(b: GameBody) {
    && TypeOk(b) && GiruOk(b) && PromiseOk(b) && WinOk(b) && RunOk(b)
    && PresidentOk(b) && FriendOk(b) && OppositionsOk(b) && DiedOk(b)
    && b.otherKeys == {}
  }

  /** Why validation failed: the first key whose rule fails, or keys the schema does not allow. */
  datatype SchemaError = InvalidKey(key: string) | UnknownKeys(keys: set<string>)

  /** `gaemSchema.validateAsync(body)`, stopping at the first failing key in key order. */
  function Validate(b: GameBody): (r: Result<GameBody, SchemaError>)
    ensures r.Success? ==> r.value == b
  {
    if !TypeOk(b) then Failure(InvalidKey("type"))
    else if !GiruOk(b) then Failure(InvalidKey("giru"))
    else if !PromiseOk(b) then Failure(InvalidKey("promise"))
    else if !WinOk(b) then Failure(InvalidKey("win"))
    else if !RunOk(b) then Failure(InvalidKey("run"))
    else if !PresidentOk(b) then Failure(InvalidKey("_presidentId"))
    else if !FriendOk(b) then Failure(InvalidKey("_friendId"))
    else if !OppositionsOk(b) then Failure(InvalidKey("_oppositionIds"))
    else if !DiedOk(b) then Failure(InvalidKey("_diedId"))
    else if b.otherKeys != {} then Failure(UnknownKeys(b.otherKeys))
    else Success(b)
  }

  /** Validation succeeds exactly on the bodies the schema describes, and reports a key whose rule fails. */
  lemma ValidateAgrees(b: GameBody)
    ensures Validate(b).Success? <==> ValidBody(b)
    ensures Validate(b) == Failure(InvalidKey("_oppositionIds")) ==> FriendOk(b) && !OppositionsOk(b)
    ensures Validate(b) == Failure(InvalidKey("_diedId")) ==> TypeOk(b) && !DiedOk(b)
  {
  }

  function BodySlots(b: GameBody): (s: seq<string>)
    requires b.president.Some? && b.oppositions.Some?
  {
    [b.president.value] + OptionList(b.friend) + b.oppositions.value + OptionList(b.died)
  }

  /** A valid body fills exactly five slots in a five-member game and six in a six-member game. */
  lemma SlotCount(b: GameBody)
    requires ValidBody(b) && b.oppositions.Some?
    ensures |BodySlots(b)| == (if b.gameType == Some("5M") then 5 else 6)
  {
  }

  /** The schema plus distinct ids gives a well-formed game, whatever the bonus flags. */
  lemma {:induction false} SchemaShape(b: GameBody, t: GameType, isNogi: bool, isRun: bool)
    requires ValidBody(b) && b.oppositions.Some?
    requires b.gameType == Some(TypeText(t))
    requires Distinct(BodySlots(b))
    ensures WellFormed(Game(t, b.win.value, isNogi, isRun, b.president.value, b.friend, b.oppositions.value, b.died))
  {
    var g := Game(t, b.win.value, isNogi, isRun, b.president.value, b.friend, b.oppositions.value, b.died);
    assert SlotIds(g) == BodySlots(b);
    forall i | 0 <= i < |SlotIds(g)| ensures HexId(SlotIds(g)[i]) {
      var s := SlotIds(g);
      if i == 0 {
      } else if i < 1 + |OptionList(g.friend)| {
        assert s[i] == g.friend.value;
      } else if i < 1 + |OptionList(g.friend)| + |g.oppositions| {
        assert s[i] == g.oppositions[i - 1 - |OptionList(g.friend)|];
      } else {
        assert s[i] == g.died.value;
      }
    }
    assert t == SixM <==> b.gameType == Some("6M");
  }

  /** The schema does not check that the ids are distinct: one id in every slot passes. */
  lemma RepeatedIdsPass()
    ensures var id := "0123456789abcdef01234567";
      ValidBody(GameBody(Some("5M"), None, Some(13), Some(true), Some(false),
                         Some(id), Some(id), Some([id, id, id]), None, {}))
  {
  }
}
