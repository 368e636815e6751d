/**
 * Domain types shared by the server and the client: player identities,
 * players, draw actions, the room state sum type, turns and the hint map
 * built for the guess word.
 */
module World {
  import opened Wrappers

  /** A connection id: a byte, unique among the connected players. */
  type PlayerId = U8

  /** A point on the canvas. */
  type Coord = (U16, U16)

  /** Player identity: a display name and a connection id. */
  datatype Username = Username(name: string, id: PlayerId)
  {
    function Name(): string { name }
    function Id(): PlayerId { id }
    function IntoInner(): (string, PlayerId) { (name, id) }
  }

  /** `Username::new`: the accessors give back exactly what was passed in. */
  function NewUsername(name: string, id: PlayerId): (u: Username)
    ensures u.Name() == name && u.Id() == id
    ensures u.IntoInner() == (name, id)
  {
    Username(name, id)
  }

  /** Lexicographic order on strings, a proper prefix being smaller (Rust's `Ord` for `String`). */
  predicate StrLess(a: string, b: string)
    decreases |a|
  {
    if a == [] then b != []
    else if b == [] then false
    else if a[0] != b[0] then a[0] < b[0]
    else StrLess(a[1..], b[1..])
  }

  /** The derived ordering of `Username`: by name, then by id. */
  predicate UsernameLess(a: Username, b: Username) {
    StrLess(a.name, b.name) || (a.name == b.name && a.id < b.id)
  }

  lemma {:induction false} StrLessTrichotomy(a: string, b: string)
    ensures a == b || StrLess(a, b) || StrLess(b, a)
    ensures !(StrLess(a, b) && StrLess(b, a))
    ensures !StrLess(a, a)
    decreases |a|
  {
    if a != [] && b != [] && a[0] == b[0] {
      StrLessTrichotomy(a[1..], b[1..]);
      if a[1..] == b[1..] {
        assert a == [a[0]] + a[1..] && b == [b[0]] + b[1..];
      }
    } else if a != [] {
      StrLessTrichotomy(a[1..], a[1..]);
    }
  }

  lemma {:induction false} StrLessTransitive(a: string, b: string, c: string)
    requires StrLess(a, b) && StrLess(b, c)
    ensures StrLess(a, c)
    decreases |a|
  {
    if a != [] && a[0] == b[0] && b[0] == c[0] {
      StrLessTransitive(a[1..], b[1..], c[1..]);
    }
  }

  /** Equality and the derived order agree: exactly one of a < b, a == b, b < a holds. */
  lemma UsernameOrderTotal(a: Username, b: Username)
    ensures a == b <==> !UsernameLess(a, b) && !UsernameLess(b, a)
    ensures !(UsernameLess(a, b) && UsernameLess(b, a))
  {
    StrLessTrichotomy(a.name, b.name);
  }

  lemma UsernameLessTransitive(a: Username, b: Username, c: Username)
    requires UsernameLess(a, b) && UsernameLess(b, c)
    ensures UsernameLess(a, c)
  {
    if StrLess(a.name, b.name) && StrLess(b.name, c.name) {
      StrLessTransitive(a.name, b.name, c.name);
    }
  }

  /** The data the server stores for every player. */
  datatype Player = Player(score: nat, name: Username, solvedCurrentRound: bool)

  /** `Player::from`: a fresh player keeps the name, has no points and has not solved. */
  function PlayerFrom(name: Username): (p: Player)
    ensures p.name == name && p.score == 0 && !p.solvedCurrentRound
  {
    Player(0, name, false)
  }

  datatype Color =
    | White | Gray | DarkGray | Black | Red | LightRed | Green | LightGreen
    | Blue | LightBlue | Yellow | LightYellow | Cyan | LightCyan | Magenta | LightMagenta

  datatype Draw =
    | Clear
    | Erase(point: Coord)
    | Paint(points: seq<Coord>, color: Color)

  datatype GameOpts = GameOpts(
    dimensions: Coord,
    numberOfRounds: nat,
    roundDuration: nat,
    maxRoomSize: nat,
    customWords: seq<string>,
    onlyCustomWords: bool)

  datatype RoomState<T> = FreeDraw | Lobby | Waiting | Playing(world: T)
  {
    /** `world` and `world_mut`: the game, exactly when the state is Playing. */
    function World(): (r: Option<T>)
      ensures r.Some? <==> Playing?
      ensures r.Some? ==> r.value == world
    {
      if Playing? then Some(world) else None
    }
  }

  datatype TurnState = Start | Drawing | End

  /** The word as the drawer sees it, or as a guesser sees it (hints, length and drawer). */
  datatype DrawingWord =
    | Guess(hints: map<nat, char>, who: Username, wordLen: nat)
    | Draw(word: string)

  datatype Turn = Turn(
    state: TurnState,
    word: DrawingWord,
    endInstant: U64,
    currentRound: nat,
    lastRound: nat)

  /** A snapshot of an ongoing game: canvas size, the sparse canvas and the turn. */
  datatype Game = Game(dimensions: Coord, canvas: map<Coord, Color>, turn: Turn)

  /** `dimensions` of a `RoomState<Game>`: present exactly when Playing. */
  function Dimensions(s: RoomState<Game>): (r: Option<Coord>)
    ensures r.Some? <==> s.Playing?
    ensures r.Some? ==> r.value == s.world.dimensions
  {
    match s.World()
    case Some(g) => Some(g.dimensions)
    case None => None
  }

  /** `canvas_mut` of a `RoomState<Game>`: the canvas, present exactly when Playing. */
  function Canvas(s: RoomState<Game>): (r: Option<map<Coord, Color>>)
    ensures r.Some? <==> s.Playing?
    ensures r.Some? ==> r.value == s.world.canvas
  {
    match s.World()
    case Some(g) => Some(g.canvas)
    case None => None
  }

  /** `Turn::with_word`: only the word changes. */
  function WithWord(t: Turn, w: DrawingWord): (r: Turn)
    ensures r.word == w
    ensures r.state == t.state && r.endInstant == t.endInstant
    ensures r.currentRound == t.currentRound && r.lastRound == t.lastRound
  {
    t.(word := w)
  }

  /** Rust's `char::is_whitespace`: the Unicode White_Space property. */
  predicate IsWhitespace(c: char) {
    ('\t' <= c <= '\r') || c == ' ' || c == '\U{0085}' || c == '\U{00A0}' || c == '\U{1680}'
    || ('\U{2000}' <= c <= '\U{200A}') || c == '\U{2028}' || c == '\U{2029}' || c == '\U{202F}'
    || c == '\U{205F}' || c == '\U{3000}'
  }

  /** Characters revealed to guessers as soon as a turn starts. */
  predicate IsPreRevealed(c: char) {
    IsWhitespace(c) || c == '-'
  }

  /** The initial hint map: every whitespace or '-' position, mapped to its character. */
  function InitialHints(w: string): (h: map<nat, char>)
    ensures forall i: nat :: i in h <==> i < |w| && IsPreRevealed(w[i])
    ensures forall i | i in h :: h[i] == w[i]
  {
    if w == [] then map[]
    else
      var h := InitialHints(w[..|w| - 1]);
      if IsPreRevealed(w[|w| - 1]) then h[|w| - 1 := w[|w| - 1]] else h
  }

  /** Number of bytes a character takes in UTF-8. */
  function Utf8Width(c: char): nat {
    if c as int < 0x80 then 1
    else if c as int < 0x800 then 2
    else if c as int < 0x1_0000 then 3
    else 4
  }

  /** `str::len`: the UTF-8 byte length of a string. */
  function Utf8Len(w: string): nat {
    if w == [] then 0 else Utf8Width(w[0]) + Utf8Len(w[1..])
  }

  predicate IsAscii(w: string) {
    forall i :: 0 <= i < |w| ==> w[i] as int < 0x80
  }

  /** The byte length is never below the character count, and equals it exactly for ASCII words. */
  lemma {:induction false} Utf8LenCountsChars(w: string)
    ensures Utf8Len(w) >= |w|
    ensures Utf8Len(w) == |w| <==> IsAscii(w)
  {
    if w != [] {
      Utf8LenCountsChars(w[1..]);
      if IsAscii(w[1..]) && w[0] as int < 0x80 {
        forall i | 0 <= i < |w| ensures w[i] as int < 0x80 {
          if i > 0 { assert w[i] == w[1..][i - 1]; }
        }
      }
      if IsAscii(w) {
        forall i | 0 <= i < |w| - 1 ensures w[1..][i] as int < 0x80 {
          assert w[1..][i] == w[i + 1];
        }
      }
    }
  }

  /** `DrawingWord::from((who, word))`: the guesser's view of a fresh word. */
  function GuessWord(who: Username, w: string): (d: DrawingWord)
    ensures d.Guess? && d.who == who
    ensures forall i: nat :: i in d.hints <==> i < |w| && IsPreRevealed(w[i])
    ensures forall i | i in d.hints :: d.hints[i] == w[i]
    ensures d.wordLen == Utf8Len(w)
  {
    Guess(InitialHints(w), who, Utf8Len(w))
  }

  const I64_HALF: int := 0x8000_0000_0000_0000
  const U64_MOD: int := 0x1_0000_0000_0000_0000
  const U32_MOD: int := 0x1_0000_0000

  /** `x as i64` for a `u64`: two's complement reinterpretation. */
  function AsI64(x: U64): int {
    if x < I64_HALF then x else x - U64_MOD
  }

  /** Wrapping `i64` subtraction (release-build overflow behaviour). */
  function WrappingSubI64(a: int, b: int): int {
    var d := (a - b) % U64_MOD;
    if d < I64_HALF then d else d - U64_MOD
  }

  /** `Game::remaining_round_time`, the wall clock passed in as `now` (seconds). */
  function RemainingRoundTime(g: Game, now: U64): (r: U32)
  {
    var diff := WrappingSubI64(AsI64(g.turn.endInstant), AsI64(now));
    var clamped := if diff > 0 then diff else 0;
    clamped % U32_MOD
  }

  /** For instants below 2^63 the remaining time is the clamped difference, truncated to 32 bits. */
  lemma RemainingRoundTimeClamps(g: Game, now: U64)
    requires g.turn.endInstant < I64_HALF && now < I64_HALF
    ensures g.turn.endInstant <= now ==> RemainingRoundTime(g, now) == 0
    ensures g.turn.endInstant > now ==>
      RemainingRoundTime(g, now) == (g.turn.endInstant - now) % U32_MOD
    ensures g.turn.endInstant > now && g.turn.endInstant - now < U32_MOD ==>
      RemainingRoundTime(g, now) == g.turn.endInstant - now
  {
  }
}
