/** Which sleds a request names (common/src/targets.rs), and each sled's own check
of it (server/src/rack.rs). Text is bytes; a baseboard's own text form is its part
number and serial number around the first colon. */
module Targets {
  import opened Bytes
  import opened Wrappers

  type Text = seq<Byte>

  const COMMA: Byte := 44
  const COLON: Byte := 58
  const STAR: Byte := 42
  const ZERO: Byte := 48
  const MAX_CUBBY := 31

  datatype Baseboard = Baseboard(part: Text, serial: Text)

  datatype SledId = Board(baseboard: Baseboard) | Cubby(cubby: Byte)

  datatype Target = All | Sleds(sleds: seq<SledId>)
  {
    predicate IsSingle() { Sleds? && |sleds| == 1 }
  }

  // ---- Text forms

  predicate IsDigit(b: Byte) { ZERO <= b < ZERO + 10 }

  predicate AllDigits(s: Text) { forall i :: 0 <= i < |s| ==> IsDigit(s[i]) }

  function Decimal(n: nat): (s: Text)
    ensures |s| > 0 && AllDigits(s)
  {
    if n < 10 then [ZERO + n] else Decimal(n / 10) + [ZERO + n % 10]
  }

  function Number(s: Text): nat
    requires AllDigits(s)
  {
    if |s| == 0 then 0 else Number(s[..|s| - 1]) * 10 + (s[|s| - 1] - ZERO)
  }

  lemma {:induction false} NumberOfDecimal(n: nat)
    ensures Number(Decimal(n)) == n
  {
    if n >= 10 {
      NumberOfDecimal(n / 10);
      var s := Decimal(n);
      assert s[..|s| - 1] == Decimal(n / 10);
    }
  }

  predicate IsSpace(b: Byte) { b == 32 || 9 <= b <= 13 }

  function TrimStart(s: Text): (r: Text)
    ensures |r| <= |s| && r == s[|s| - |r|..]
    ensures |r| > 0 ==> !IsSpace(r[0])
  {
    if |s| > 0 && IsSpace(s[0]) then TrimStart(s[1..]) else s
  }

  function TrimEnd(s: Text): (r: Text)
    ensures |r| <= |s| && r == s[..|r|]
    ensures |r| > 0 ==> !IsSpace(r[|r| - 1])
  {
    if |s| > 0 && IsSpace(s[|s| - 1]) then TrimEnd(s[..|s| - 1]) else s
  }

  function Trim(s: Text): Text {
    TrimEnd(TrimStart(s))
  }

  predicate Trimmed(s: Text) {
    |s| > 0 ==> !IsSpace(s[0]) && !IsSpace(s[|s| - 1])
  }

  lemma {:induction false} TrimIsTrimmed(s: Text)
    ensures Trimmed(Trim(s)) && (Trimmed(s) ==> Trim(s) == s)
    ensures forall b :: b in Trim(s) ==> b in s
  {
    var t := TrimStart(s);
    assert forall b :: b in Trim(s) ==> b in t;
    assert forall b :: b in t ==> b in s;
  }

  /** The pieces between separators, at least one. */
  function Split(s: Text, sep: Byte): (r: seq<Text>)
    ensures |r| > 0
    ensures forall i :: 0 <= i < |r| ==> sep !in r[i]
  {
    if |s| == 0 then [[]]
    else
      var b, rest := s[|s| - 1], Split(s[..|s| - 1], sep);
      if b == sep then rest + [[]] else rest[..|rest| - 1] + [rest[|rest| - 1] + [b]]
  }

  function Join(parts: seq<Text>, sep: Byte): Text {
    if |parts| == 0 then []
    else if |parts| == 1 then parts[0]
    else Join(parts[..|parts| - 1], sep) + [sep] + parts[|parts| - 1]
  }

  lemma {:induction false} SplitPiece(s: Text, piece: Text, sep: Byte)
    requires sep !in piece
    ensures var r := Split(s, sep);
            Split(s + piece, sep) == r[..|r| - 1] + [r[|r| - 1] + piece]
    decreases |piece|
  {
    var r := Split(s, sep);
    if |piece| == 0 {
      assert s + piece == s && r[|r| - 1] + piece == r[|r| - 1];
      assert r == r[..|r| - 1] + [r[|r| - 1]];
    } else {
      var k := |piece| - 1;
      SplitPiece(s, piece[..k], sep);
      assert (s + piece)[..|s| + k] == s + piece[..k];
      assert piece == piece[..k] + [piece[k]];
      assert r[|r| - 1] + piece == r[|r| - 1] + piece[..k] + [piece[k]];
    }
  }

  /** A separator and one more piece. */
  lemma {:induction false} SplitMore(s: Text, piece: Text, sep: Byte)
    requires sep !in piece
    ensures Split(s + [sep] + piece, sep) == Split(s, sep) + [piece]
  {
    var more := s + [sep];
    assert more[..|s|] == s && more[|s|] == sep;
    var r := Split(s, sep);
    assert Split(more, sep) == r + [[]];
    SplitPiece(more, piece, sep);
    assert (r + [[]])[..|r|] == r && [] + piece == piece;
  }

  lemma {:induction false} SplitJoin(parts: seq<Text>, sep: Byte)
    requires |parts| > 0 && forall i :: 0 <= i < |parts| ==> sep !in parts[i]
    ensures Split(Join(parts, sep), sep) == parts
  {
    var k := |parts| - 1;
    if k == 0 {
      SplitPiece([], parts[0], sep);
      assert [] + parts[0] == parts[0];
    } else {
      SplitJoin(parts[..k], sep);
      SplitMore(Join(parts[..k], sep), parts[k], sep);
      assert parts == parts[..k] + [parts[k]];
    }
  }

  function ShowBaseboard(b: Baseboard): Text {
    b.part + [COLON] + b.serial
  }

  /** Where the first colon is, or the length of the text. */
  function FirstColon(s: Text): (k: nat)
    ensures k <= |s| && COLON !in s[..k] && (k < |s| ==> s[k] == COLON)
  {
    if |s| == 0 || s[0] == COLON then 0
    else
      var k := 1 + FirstColon(s[1..]);
      assert s[..k] == [s[0]] + s[1..][..k - 1];
      k
  }

  function ParseBaseboard(s: Text): Option<Baseboard> {
    var k := FirstColon(s);
    if k == |s| then None else Some(Baseboard(s[..k], s[k + 1..]))
  }

  lemma {:induction false} FirstColonAfter(part: Text, rest: Text)
    requires COLON !in part
    ensures FirstColon(part + [COLON] + rest) == |part|
  {
    if |part| > 0 {
      FirstColonAfter(part[1..], rest);
      assert (part + [COLON] + rest)[1..] == part[1..] + [COLON] + rest;
    }
  }

  lemma {:induction false} BaseboardRoundTrip(b: Baseboard)
    requires COLON !in b.part
    ensures ParseBaseboard(ShowBaseboard(b)) == Some(b)
  {
    var s := ShowBaseboard(b);
    FirstColonAfter(b.part, b.serial);
    assert s[..|b.part|] == b.part && s[|b.part| + 1..] == b.serial;
  }

  function ShowSled(sled: SledId): Text {
    match sled
    case Board(baseboard) => ShowBaseboard(baseboard)
    case Cubby(cubby) => Decimal(cubby)
  }

  function ParseSled(s: Text): Option<SledId> {
    if |s| > 0 && AllDigits(s) then
      if Number(s) <= MAX_CUBBY then Some(Cubby(Number(s))) else None
    else match ParseBaseboard(s)
      case None => None
      case Some(baseboard) => Some(Board(baseboard))
  }

  /** A sled as some text can name it. */
  ghost predicate WellFormedSled(sled: SledId) {
    match sled
    case Cubby(cubby) => cubby <= MAX_CUBBY
    case Board(b) =>
      COLON !in b.part && COMMA !in ShowBaseboard(b) && Trimmed(ShowBaseboard(b))
  }

  lemma {:induction false} DigitsHaveNo(s: Text, b: Byte)
    requires AllDigits(s) && !IsDigit(b)
    ensures b !in s
  {
  }

  lemma {:induction false} DigitsAreTrimmed(s: Text)
    requires AllDigits(s)
    ensures Trimmed(s)
  {
  }

  lemma {:induction false} SledRoundTrip(sled: SledId)
    requires WellFormedSled(sled)
    ensures var s := ShowSled(sled);
            ParseSled(s) == Some(sled) && COMMA !in s && Trimmed(s) && s != [STAR]
  {
    var s := ShowSled(sled);
    match sled {
      case Cubby(cubby) =>
        NumberOfDecimal(cubby);
        DigitsHaveNo(s, COMMA);
        DigitsHaveNo(s, STAR);
        DigitsAreTrimmed(s);
      case Board(b) =>
        BaseboardRoundTrip(b);
        assert s[|b.part|] == COLON;
    }
  }

  lemma {:induction false} ParsedSledIsWellFormed(s: Text)
    requires COMMA !in s && Trimmed(s)
    ensures ParseSled(s).Some? ==> WellFormedSled(ParseSled(s).value)
  {
    if ParseSled(s).Some? && ParseSled(s).value.Board? {
      var b := ParseSled(s).value.baseboard;
      assert ShowBaseboard(b) == s;
    }
  }

  function ShowAll(sleds: seq<SledId>): (r: seq<Text>)
    ensures |r| == |sleds| && forall i :: 0 <= i < |r| ==> r[i] == ShowSled(sleds[i])
  {
    seq(|sleds|, i requires 0 <= i < |sleds| => ShowSled(sleds[i]))
  }

  function Show(target: Target): Text {
    match target
    case All => [STAR]
    case Sleds(sleds) => Join(ShowAll(sleds), COMMA)
  }

  /** All the values in turn, or nothing if one is missing. */
  function Collect<T>(rs: seq<Option<T>>): (r: Option<seq<T>>)
    ensures r.Some? ==> |r.value| == |rs| && forall i :: 0 <= i < |rs| ==> rs[i] == Some(r.value[i])
    ensures r.None? ==> exists i :: 0 <= i < |rs| && rs[i].None?
  {
    if |rs| == 0 then Some([])
    else if rs[0].None? then None
    else
      match Collect(rs[1..])
      case None =>
        assert exists i :: 0 <= i < |rs[1..]| && rs[1..][i].None?;
        None
      case Some(rest) => Some([rs[0].value] + rest)
  }

  function ParseAll(pieces: seq<Text>): (r: seq<Option<SledId>>)
    ensures |r| == |pieces| && forall i :: 0 <= i < |r| ==> r[i] == ParseSled(Trim(pieces[i]))
  {
    seq(|pieces|, i requires 0 <= i < |pieces| => ParseSled(Trim(pieces[i])))
  }

  function Parse(s: Text): Option<Target> {
    if Trim(s) == [STAR] then Some(All)
    else match Collect(ParseAll(Split(s, COMMA)))
      case None => None
      case Some(sleds) => Some(Sleds(sleds))
  }

  ghost predicate WellFormed(target: Target) {
    target.Sleds? ==>
      |target.sleds| > 0 && forall i :: 0 <= i < |target.sleds| ==> WellFormedSled(target.sleds[i])
  }

  lemma {:induction false} JoinIsNotStar(parts: seq<Text>)
    requires |parts| > 0 && forall i :: 0 <= i < |parts| ==> parts[i] != [STAR] && Trimmed(parts[i]) && |parts[i]| > 0
    ensures Trim(Join(parts, COMMA)) != [STAR]
  {
    var s := Join(parts, COMMA);
    JoinStarts(parts);
    TrimIsTrimmed(s);
  }

  lemma {:induction false} JoinStarts(parts: seq<Text>)
    requires |parts| > 0 && forall i :: 0 <= i < |parts| ==> Trimmed(parts[i]) && |parts[i]| > 0
    ensures var s := Join(parts, COMMA);
            Trimmed(s) && |s| > 0 && (|parts| > 1 ==> |s| > 1)
  {
    if |parts| > 1 {
      JoinStarts(parts[..|parts| - 1]);
    }
  }

  lemma {:induction false} PartsRoundTrip(sleds: seq<SledId>)
    requires |sleds| > 0 && forall i :: 0 <= i < |sleds| ==> WellFormedSled(sleds[i])
    ensures var parts := ShowAll(sleds);
            && Split(Join(parts, COMMA), COMMA) == parts
            && Trim(Join(parts, COMMA)) != [STAR]
            && forall i :: 0 <= i < |parts| ==> ParseSled(Trim(parts[i])) == Some(sleds[i])
  {
    var parts := ShowAll(sleds);
    forall i | 0 <= i < |parts|
      ensures ParseSled(Trim(parts[i])) == Some(sleds[i])
      ensures COMMA !in parts[i] && parts[i] != [STAR] && Trimmed(parts[i]) && |parts[i]| > 0
    {
      SledRoundTrip(sleds[i]);
      TrimIsTrimmed(ShowSled(sleds[i]));
    }
    SplitJoin(parts, COMMA);
    JoinIsNotStar(parts);
  }

  lemma {:induction false} CollectAll<T>(rs: seq<Option<T>>, values: seq<T>)
    requires |rs| == |values| && forall i :: 0 <= i < |rs| ==> rs[i] == Some(values[i])
    ensures Collect(rs) == Some(values)
  {
    var r := Collect(rs);
    assert r.value == values;
  }

  /** A target some text can name prints as text that names it; so no two print
      alike. */
  lemma {:induction false} RoundTrip(target: Target)
    requires WellFormed(target)
    ensures Parse(Show(target)) == Some(target)
  {
    if target.Sleds? {
      PartsRoundTrip(target.sleds);
      CollectAll(ParseAll(ShowAll(target.sleds)), target.sleds);
    } else {
      TrimIsTrimmed([STAR]);
    }
  }

  lemma {:induction false} PieceIsWellFormed(piece: Text)
    requires COMMA !in piece
    ensures ParseSled(Trim(piece)).Some? ==> WellFormedSled(ParseSled(Trim(piece)).value)
  {
    TrimIsTrimmed(piece);
    ParsedSledIsWellFormed(Trim(piece));
  }

  lemma {:induction false} PiecesAreWellFormed(pieces: seq<Text>)
    requires forall i :: 0 <= i < |pieces| ==> COMMA !in pieces[i]
    ensures var r := Collect(ParseAll(pieces));
            r.Some? ==> forall i :: 0 <= i < |r.value| ==> WellFormedSled(r.value[i])
  {
    var rs := ParseAll(pieces);
    forall i | 0 <= i < |pieces|
      ensures rs[i].Some? ==> WellFormedSled(rs[i].value)
    {
      PieceIsWellFormed(pieces[i]);
    }
  }

  /** The well-formed targets are all that parsing yields. */
  lemma {:induction false} ParsedIsWellFormed(s: Text)
    ensures Parse(s).Some? ==> WellFormed(Parse(s).value)
  {
    PiecesAreWellFormed(Split(s, COMMA));
  }

  lemma {:induction false} ShowIsInjective(a: Target, b: Target)
    requires WellFormed(a) && WellFormed(b) && Show(a) == Show(b)
    ensures a == b
  {
    RoundTrip(a);
    RoundTrip(b);
  }

  /** A target that no text names can print like another one. */
  lemma {:induction false} CommaIsAmbiguous()
    ensures var one := Sleds([Board(Baseboard([65], [66, COMMA, 67, COLON, 68]))]);
            var two := Sleds([Board(Baseboard([65], [66])), Board(Baseboard([67], [68]))]);
            one != two && Show(one) == Show(two) && !WellFormed(one)
  {
    var one := [Board(Baseboard([65], [66, COMMA, 67, COLON, 68]))];
    var two := [Board(Baseboard([65], [66])), Board(Baseboard([67], [68]))];
    assert ShowSled(two[0]) == [65, COLON, 66];
    assert ShowAll(two)[..1] == [[65, COLON, 66]];
    assert ShowAll(two)[1] == [67, COLON, 68];
    assert ShowAll(one)[0] == [65, COLON, 66, COMMA, 67, COLON, 68];
    assert ShowBaseboard(one[0].baseboard)[3] == COMMA;
    assert Show(Sleds(one)) == ShowAll(one)[0];
    assert !WellFormedSled(one[0]);
    assert Sleds(one).sleds[0] == one[0];
  }

  // ---- Resolving a target, and checking it

  type Cubbies = map<Byte, Baseboard>

  datatype Resolved = Reached(sleds: set<Baseboard>) | UnknownCubby(cubby: Byte)

  /** The first sled whose cubby nobody is known to occupy. */
  function FirstUnknown(sleds: seq<SledId>, cubbies: Cubbies): Option<Byte> {
    if |sleds| == 0 then None
    else if sleds[0].Cubby? && sleds[0].cubby !in cubbies then Some(sleds[0].cubby)
    else FirstUnknown(sleds[1..], cubbies)
  }

  predicate Names(sled: SledId, cubbies: Cubbies, b: Baseboard) {
    match sled
    case Board(baseboard) => baseboard == b
    case Cubby(cubby) => cubby in cubbies && cubbies[cubby] == b
  }

  method Resolve(target: Target, reachable: set<Baseboard>, cubbies: Cubbies) returns (r: Resolved)
    ensures target.All? ==> r == Reached(reachable)
    ensures target.Sleds? ==>
              match FirstUnknown(target.sleds, cubbies) {
                case Some(cubby) => r == UnknownCubby(cubby)
                case None =>
                  r.Reached? && r.sleds <= reachable
                  && forall b <- reachable :: b in r.sleds <==> exists s <- target.sleds :: Names(s, cubbies, b)
              }
  {
    match target {
      case All => return Reached(reachable);
      case Sleds(sleds) =>
        var named: set<Baseboard> := {};
        for i := 0 to |sleds|
          invariant FirstUnknown(sleds, cubbies) == FirstUnknown(sleds[i..], cubbies)
          invariant forall b :: b in named <==> exists j :: 0 <= j < i && Names(sleds[j], cubbies, b)
        {
          match sleds[i] {
            case Board(baseboard) =>
              named := named + {baseboard};
            case Cubby(cubby) =>
              if cubby !in cubbies {
                return UnknownCubby(cubby);
              }
              named := named + {cubbies[cubby]};
          }
        }
        r := Reached(named * reachable);
    }
  }

  predicate Matches(target: Target, baseboard: Baseboard, cubby: Option<Byte>) {
    match target
    case All => true
    case Sleds(sleds) =>
      exists s <- sleds ::
        match s {
          case Board(listed) => listed == baseboard
          case Cubby(listed) => Some(listed) == cubby
        }
  }
}
