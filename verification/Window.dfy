/** Maintenance windows: five-field cron expressions that mark opening minutes, and a duration. */
module Window {
  import opened Api

  datatype Result<+T> = Ok(value: T) | Err

  /** One minute in the clock's unit, nanoseconds. */
  const MINUTE := 60_000_000_000

  const MAX_LOOKAHEAD_MINUTES := 366 * 24 * 60

  /** Local calendar fields of one minute. Weekday 0 is Sunday. */
  datatype Civil = Civil(minute: int, hour: int, day: int, month: int, weekday: int)

  /** The local calendar of a zone whose offset is a whole number of minutes, per absolute minute. */
  type Calendar = int -> Civil

  datatype CronWindow = CronWindow(cron: string, duration: int, timeZone: string)

  datatype Schedule = Schedule(
    minutes: set<int>, hours: set<int>, doms: set<int>, months: set<int>, dows: set<int>, domStar: bool, dowStar: bool)

  // ----- splitting text -----

  /** The position of the first c in s. */
  function IndexOf(s: string, c: char): (r: Option<nat>)
    ensures r.Some? ==> r.value < |s| && s[r.value] == c && c !in s[..r.value]
    ensures r.None? ==> c !in s
  {
    if s == [] then None
    else if s[0] == c then Some(0)
    else
      var r := IndexOf(s[1..], c);
      if r.None? then None else
        assert s[..r.value + 1] == [s[0]] + s[1..][..r.value];
        Some(r.value + 1)
  }

  function Split(s: string, c: char): seq<string>
    decreases |s|
  {
    var i := IndexOf(s, c);
    if i.None? then [s] else [s[..i.value]] + Split(s[i.value + 1..], c)
  }

  function Join(parts: seq<string>, c: char): string
    requires parts != []
  {
    if |parts| == 1 then parts[0] else parts[0] + [c] + Join(parts[1..], c)
  }

  /** Splitting loses nothing and leaves no separator behind. */
  lemma {:induction false} SplitFacts(s: string, c: char)
    ensures Split(s, c) != [] && Join(Split(s, c), c) == s
    ensures forall i | 0 <= i < |Split(s, c)| :: c !in Split(s, c)[i]
    decreases |s|
  {
    var i := IndexOf(s, c);
    if i.Some? {
      SplitFacts(s[i.value + 1..], c);
      assert s == s[..i.value] + [c] + s[i.value + 1..];
      assert Split(s, c)[1..] == Split(s[i.value + 1..], c);
    }
  }

  /** The characters of the Unicode property White_Space. */
  predicate IsSpace(c: char) {
    || c in {' ', '\t', '\n', '\r', '\U{0B}', '\U{0C}', '\U{85}', '\U{A0}', '\U{1680}', '\U{2028}', '\U{2029}', '\U{202F}', '\U{205F}', '\U{3000}'}
    || '\U{2000}' <= c <= '\U{200A}'
  }

  /** The maximal runs of non-space characters; word is the run being read. */
  function FieldsOf(s: string, word: string): seq<string> {
    if s == [] then (if word == [] then [] else [word])
    else if IsSpace(s[0]) then (if word == [] then [] else [word]) + FieldsOf(s[1..], [])
    else FieldsOf(s[1..], word + [s[0]])
  }

  ghost predicate AllSpace(s: string) {
    forall i | 0 <= i < |s| :: IsSpace(s[i])
  }

  ghost predicate NoSpace(s: string) {
    forall i | 0 <= i < |s| :: !IsSpace(s[i])
  }

  /** The first word of s runs from a to b. */
  ghost predicate FirstWord(s: string, a: nat, b: nat) {
    && a < b <= |s|
    && (forall i | 0 <= i < a :: IsSpace(s[i])) && (forall i | a <= i < b :: !IsSpace(s[i])) && (b == |s| || IsSpace(s[b]))
  }

  /** These are the words of s, from first to last: its maximal runs of characters that are no spaces. */
  ghost predicate Words(s: string, ws: seq<string>)
    decreases |ws|
  {
    if ws == [] then AllSpace(s)
    else exists a: nat, b: nat :: FirstWord(s, a, b) && ws[0] == s[a..b] && Words(s[b..], ws[1..])
  }

  lemma FirstWordUnique(s: string, a: nat, b: nat, c: nat, d: nat)
    requires FirstWord(s, a, b) && FirstWord(s, c, d)
    ensures a == c && b == d
  {
    assert !IsSpace(s[a]) && !IsSpace(s[c]);
  }

  lemma {:induction false} WordsFrom(s: string, a: nat, b: nat, ws: seq<string>)
    requires FirstWord(s, a, b)
    ensures Words(s, ws) <==> ws != [] && ws[0] == s[a..b] && Words(s[b..], ws[1..])
  {
    assert !IsSpace(s[a]);
    if ws != [] && Words(s, ws) {
      var c: nat, d: nat :| FirstWord(s, c, d) && ws[0] == s[c..d] && Words(s[d..], ws[1..]);
      FirstWordUnique(s, a, b, c, d);
    }
  }

  lemma FirstWordSkip(s: string, a: nat, b: nat)
    requires s != [] && IsSpace(s[0])
    ensures FirstWord(s, a + 1, b + 1) <==> FirstWord(s[1..], a, b)
    ensures FirstWord(s[1..], a, b) ==> s[a + 1..b + 1] == s[1..][a..b] && s[b + 1..] == s[1..][b..]
  {
    assert forall i | 0 < i < |s| :: s[i] == s[1..][i - 1];
  }

  lemma {:induction false} WordsSkip(s: string, ws: seq<string>)
    requires s != [] && IsSpace(s[0])
    ensures Words(s, ws) <==> Words(s[1..], ws)
  {
    if ws == [] {
      assert forall i | 0 < i < |s| :: s[i] == s[1..][i - 1];
    } else {
      WordsSkipOn(s, ws);
      WordsSkipBack(s, ws);
    }
  }

  lemma {:induction false} WordsSkipOn(s: string, ws: seq<string>)
    requires s != [] && IsSpace(s[0]) && ws != []
    ensures Words(s, ws) ==> Words(s[1..], ws)
  {
    if a: nat, b: nat :| FirstWord(s, a, b) && ws[0] == s[a..b] && Words(s[b..], ws[1..]) {
      assert !IsSpace(s[a]);
      FirstWordSkip(s, a - 1, b - 1);
      WordsFrom(s[1..], a - 1, b - 1, ws);
    }
  }

  lemma {:induction false} WordsSkipBack(s: string, ws: seq<string>)
    requires s != [] && IsSpace(s[0]) && ws != []
    ensures Words(s[1..], ws) ==> Words(s, ws)
  {
    if a: nat, b: nat :| FirstWord(s[1..], a, b) && ws[0] == s[1..][a..b] && Words(s[1..][b..], ws[1..]) {
      FirstWordSkip(s, a, b);
      WordsFrom(s, a + 1, b + 1, ws);
    }
  }

  lemma {:induction false} WordAtEnd(s: string, ws: seq<string>)
    requires NoSpace(s)
    ensures Words(s, ws) <==> ws == if s == [] then [] else [s]
  {
    if s == [] {
    } else {
      assert s[0..|s|] == s && s[|s|..] == [];
      assert FirstWord(s, 0, |s|);
      WordsFrom(s, 0, |s|, ws);
      if ws != [] && Words([], ws[1..]) {
        assert ws[1..] == [];
        assert ws == [ws[0]] + ws[1..];
      }
    }
  }

  /** Reading s with a word begun gives the words of the whole. */
  lemma {:induction false} FieldsOfAreWords(s: string, word: string, ws: seq<string>)
    requires NoSpace(word)
    ensures Words(word + s, ws) <==> ws == FieldsOf(s, word)
    decreases |s|
  {
    if s == [] {
      assert word + s == word;
      WordAtEnd(word, ws);
    } else if !IsSpace(s[0]) {
      assert word + s == word + [s[0]] + s[1..];
      FieldsOfAreWords(s[1..], word + [s[0]], ws);
    } else if word == [] {
      assert word + s == s && [] + s[1..] == s[1..];
      WordsSkip(s, ws);
      FieldsOfAreWords(s[1..], [], ws);
    } else {
      WordThenSpace(s, word, ws);
      if ws != [] {
        FieldsOfAreWords(s[1..], [], ws[1..]);
        assert [] + s[1..] == s[1..];
        assert ws == [ws[0]] + ws[1..];
      }
    }
  }

  lemma {:induction false} WordThenSpace(s: string, word: string, ws: seq<string>)
    requires s != [] && IsSpace(s[0]) && word != [] && NoSpace(word)
    ensures Words(word + s, ws) <==> ws != [] && ws[0] == word && Words(s[1..], ws[1..])
  {
    var t := word + s;
    assert t[0..|word|] == word && t[|word|..] == s;
    assert FirstWord(t, 0, |word|);
    WordsFrom(t, 0, |word|, ws);
    if ws != [] {
      WordsSkip(s, ws[1..]);
    }
  }

  /** The fields of an expression are its words and nothing else. */
  lemma {:induction false} FieldsAreWords(s: string, ws: seq<string>)
    ensures Words(s, ws) <==> ws == FieldsOf(s, [])
  {
    assert [] + s == s;
    FieldsOfAreWords(s, [], ws);
  }

  function Digits(s: string): Result<int> {
    if s == [] then Ok(0)
    else
      var d := s[|s| - 1];
      var rest := Digits(s[..|s| - 1]);
      if '0' <= d <= '9' && rest.Ok? then Ok(rest.value * 10 + (d as int - '0' as int)) else Err
  }

  /** A decimal integer with an optional sign that fits 64 bits. */
  function Atoi(s: string): Result<int> {
    var signed := s != [] && (s[0] == '-' || s[0] == '+');
    var body := if signed then s[1..] else s;
    var n := Digits(body);
    if body == [] || n.Err? then Err
    else
      var v: int := if signed && s[0] == '-' then -n.value else n.value;
      if -0x8000_0000_0000_0000 <= v < 0x8000_0000_0000_0000 then Ok(v) else Err
  }

  // ----- one field -----

  const INT64 := 0x8000_0000_0000_0000

  /** Two's complement wrap-around of a 64-bit sum. */
  function Wrap64(x: int): int {
    var m := x % (2 * INT64);
    if m < INT64 then m else m - 2 * INT64
  }

  /** An arithmetic progression of field values. */
  datatype Part = Part(lo: int, hi: int, step: int) {
    /** How far the step falls short of the 64-bit range. */
    function Slack(): int {
      INT64 - step
    }

    /** The first addition of the step stays within 64 bits. */
    predicate Fits() {
      lo + step < INT64
    }
  }

  function Bounds(range: string, hasStep: bool, min: int, max: int): Result<(int, int)> {
    var dash := IndexOf(range, '-');
    if range == "*" then Ok((min, max))
    else if dash.Some? then
      var a := Atoi(range[..dash.value]);
      var b := Atoi(range[dash.value + 1..]);
      if a.Err? || b.Err? then Err else Ok((a.value, b.value))
    else
      var v := Atoi(range);
      if v.Err? then Err else Ok((v.value, if hasStep then max else v.value))
  }

  function ParsePart(part: string, min: int, max: int): (r: Result<Part>)
    ensures r.Ok? ==> min <= r.value.lo <= r.value.hi <= max && 0 < r.value.step < INT64
  {
    var slash := IndexOf(part, '/');
    var step := if slash.None? then Ok(1) else Atoi(part[slash.value + 1..]);
    if step.Err? || step.value <= 0 then Err
    else
      var b := Bounds(if slash.None? then part else part[..slash.value], slash.Some?, min, max);
      if b.Err? || b.value.0 < min || b.value.1 > max || b.value.0 > b.value.1 then Err
      else Ok(Part(b.value.0, b.value.1, step.value))
  }

  predicate InPart(p: Part, v: int) {
    p.lo <= v <= p.hi && p.step > 0 && (v - p.lo) % p.step == 0
  }

  /** Two additions of a step so large that the first one wraps come down by twice its slack; v is reached that way. */
  predicate OnDescent(p: Part, v: int) {
    v <= p.lo && p.Slack() > 0 && (p.lo - v) % (2 * p.Slack()) == 0 && -p.Slack() <= v
  }

  /** v is where the addition from a value on the descent wraps to. */
  predicate InTrough(p: Part, v: int) {
    -INT64 <= v && OnDescent(p, v + INT64 + p.Slack())
  }

  /** The values a part puts into its field: its progression, and what the wrapped sums of a huge step add. */
  predicate Yields(p: Part, v: int) {
    InPart(p, v) || OnDescent(p, v) || InTrough(p, v)
  }

  // ----- what a part says, as written -----

  /** The written forms of the range of a part: "*", "N" and "A-B". */
  datatype Range = Star | Number(n: int) | Between(a: int, b: int)

  /** A part as written: a range, and after a slash a step. */
  datatype Form = Form(range: Range, step: Option<int>)

  predicate AllDigits(s: string) {
    s != [] && forall i | 0 <= i < |s| :: '0' <= s[i] <= '9'
  }

  function Pow10(k: nat): nat {
    if k == 0 then 1 else 10 * Pow10(k - 1)
  }

  /** The value of a decimal numeral by the places of its digits. */
  function PlaceValue(s: string): int {
    if s == [] then 0 else (s[0] as int - '0' as int) * Pow10(|s| - 1) + PlaceValue(s[1..])
  }

  /** The text is a decimal numeral for n, perhaps signed, of 64 bits. */
  ghost predicate Numeral(s: string, n: int) {
    && -INT64 <= n < INT64
    && ((AllDigits(s) && n == PlaceValue(s))
        || (s != [] && s[0] == '+' && AllDigits(s[1..]) && n == PlaceValue(s[1..]))
        || (s != [] && s[0] == '-' && AllDigits(s[1..]) && n == -PlaceValue(s[1..])))
  }

  /** The text falls into a and b at its first c. */
  ghost predicate CutAt(s: string, c: char, a: string, b: string) {
    s == a + [c] + b && c !in a
  }

  ghost predicate SpellsRange(s: string, r: Range) {
    match r
    case Star => s == "*"
    case Number(n) => '-' !in s && Numeral(s, n)
    case Between(a, b) => exists x, y :: CutAt(s, '-', x, y) && Numeral(x, a) && Numeral(y, b)
  }

  ghost predicate Spells(s: string, f: Form) {
    match f.step
    case None => '/' !in s && SpellsRange(s, f.range)
    case Some(k) => exists x, y :: CutAt(s, '/', x, y) && SpellsRange(x, f.range) && Numeral(y, k)
  }

  /** "*" is the whole field, "A-B" from A to B, "N" that value alone, but "N/S" from N to the end of the field. */
  function Meaning(f: Form, min: int, max: int): Part {
    var step := if f.step.Some? then f.step.value else 1;
    match f.range
    case Star => Part(min, max, step)
    case Number(n) => Part(n, if f.step.Some? then max else n, step)
    case Between(a, b) => Part(a, b, step)
  }

  /** The text denotes the part: it is one of the forms, its values are in the range of the field, and its step is positive. */
  ghost predicate DenotesPart(s: string, min: int, max: int, p: Part) {
    && min <= p.lo <= p.hi <= max && p.step > 0
    && exists f :: Spells(s, f) && Meaning(f, min, max) == p
  }

  ghost predicate DenotesSome(s: string, min: int, max: int) {
    exists p :: DenotesPart(s, min, max, p)
  }

  // parsing agrees with it

  lemma {:induction false} DigitsArePlaces(s: string)
    ensures Digits(s).Ok? <==> s == [] || AllDigits(s)
    ensures Digits(s).Ok? ==> Digits(s).value == PlaceValue(s) && PlaceValue(s) >= 0
  {
    if s != [] {
      DigitsArePlaces(s[..|s| - 1]);
      LastDigit(s);
      LastPlace(s);
    }
  }

  lemma LastDigit(s: string)
    requires s != []
    ensures var n := |s| - 1; AllDigits(s) <==> (n == 0 || AllDigits(s[..n])) && '0' <= s[n] <= '9'
  {
    assert forall i | 0 <= i < |s| - 1 :: s[..|s| - 1][i] == s[i];
  }

  lemma {:induction false} LastPlace(s: string)
    requires s != []
    ensures PlaceValue(s) == 10 * PlaceValue(s[..|s| - 1]) + (s[|s| - 1] as int - '0' as int)
  {
    var n := |s| - 1;
    if n == 0 {
      assert s[1..] == [] && s[..0] == [];
    } else {
      LastPlace(s[1..]);
      assert s[1..][..n - 1] == s[..n][1..];
      assert s[..n][0] == s[0];
    }
  }

  lemma AtoiIff(s: string, n: int)
    ensures Atoi(s) == Ok(n) <==> Numeral(s, n)
  {
    if s != [] {
      DigitsArePlaces(s);
      DigitsArePlaces(s[1..]);
    }
  }

  lemma {:induction false} CutUnique(s: string, c: char, a: string, b: string)
    requires CutAt(s, c, a, b)
    ensures IndexOf(s, c) == Some(|a|) && a == s[..|a|] && b == s[|a| + 1..]
  {
    assert s[|a|] == c && s[..|a|] == a;
    FirstIndex(s, c, |a|);
  }

  lemma {:induction false} CutExists(s: string, c: char)
    requires IndexOf(s, c).Some?
    ensures var i := IndexOf(s, c).value; CutAt(s, c, s[..i], s[i + 1..])
  {
  }

  lemma {:induction false} NoIndex(s: string, c: char)
    ensures IndexOf(s, c).None? <==> c !in s
  {
  }

  /** The range that a text spells, if any, is the one read. */
  lemma BoundsIff(s: string, r: Range)
    requires SpellsRange(s, r)
    ensures forall hasStep, min, max :: Bounds(s, hasStep, min, max) ==
              match r
              case Star => Ok((min, max))
              case Number(n) => Ok((n, if hasStep then max else n))
              case Between(a, b) => Ok((a, b))
  {
    match r
    case Star =>
    case Number(n) =>
      NoIndex(s, '-');
      AtoiIff(s, n);
      StarIsNoNumeral(n);
    case Between(a, b) =>
      var x, y :| CutAt(s, '-', x, y) && Numeral(x, a) && Numeral(y, b);
      CutUnique(s, '-', x, y);
      AtoiIff(x, a);
      AtoiIff(y, b);
      assert '-' in s;
  }

  lemma StarIsNoNumeral(n: int)
    ensures !Numeral("*", n)
  {
    assert "*"[0] == '*';
  }

  lemma RangeOf(s: string) returns (r: Range)
    requires exists hasStep, min, max :: Bounds(s, hasStep, min, max).Ok?
    ensures SpellsRange(s, r)
  {
    var i := IndexOf(s, '-');
    if s == "*" {
      r := Star;
    } else if i.Some? {
      var x, y := s[..i.value], s[i.value + 1..];
      CutExists(s, '-');
      AtoiIff(x, Atoi(x).value);
      AtoiIff(y, Atoi(y).value);
      r := Between(Atoi(x).value, Atoi(y).value);
      assert CutAt(s, '-', x, y) && Numeral(x, r.a) && Numeral(y, r.b);
    } else {
      AtoiIff(s, Atoi(s).value);
      r := Number(Atoi(s).value);
    }
  }

  /** A part is accepted, and read as p, exactly when it is one of the written forms and denotes p. */
  lemma ParsePartIff(s: string, min: int, max: int, p: Part)
    ensures ParsePart(s, min, max) == Ok(p) <==> DenotesPart(s, min, max, p)
  {
    if ParsePart(s, min, max) == Ok(p) {
      ParsedIsDenoted(s, min, max, p);
    }
    if DenotesPart(s, min, max, p) {
      var f :| Spells(s, f) && Meaning(f, min, max) == p;
      DenotedIsParsed(s, min, max, f);
    }
  }

  lemma ParsedIsDenoted(s: string, min: int, max: int, p: Part)
    requires ParsePart(s, min, max) == Ok(p)
    ensures DenotesPart(s, min, max, p)
  {
    var i := IndexOf(s, '/');
    var x := if i.None? then s else s[..i.value];
    assert Bounds(x, i.Some?, min, max).Ok?;
    var r := RangeOf(x);
    SpelledForm(s, r, p.step);
    ReadForm(s, x, r, min, max, p);
  }

  lemma {:induction false} ReadForm(s: string, x: string, r: Range, min: int, max: int, p: Part)
    requires ParsePart(s, min, max) == Ok(p) && SpellsRange(x, r)
    requires var i := IndexOf(s, '/'); x == if i.None? then s else s[..i.value]
    ensures Meaning(Form(r, if IndexOf(s, '/').None? then None else Some(p.step)), min, max) == p
  {
    BoundsIff(x, r);
  }

  lemma {:induction false} SpelledForm(s: string, r: Range, step: int)
    requires var i := IndexOf(s, '/'); SpellsRange(if i.None? then s else s[..i.value], r)
    requires var i := IndexOf(s, '/'); i.Some? ==> Atoi(s[i.value + 1..]) == Ok(step)
    ensures Spells(s, Form(r, if IndexOf(s, '/').None? then None else Some(step)))
  {
    var i := IndexOf(s, '/');
    if i.Some? {
      CutExists(s, '/');
      SpelledStep(s, s[..i.value], s[i.value + 1..], r, step);
    }
  }

  lemma SpelledStep(s: string, x: string, y: string, r: Range, step: int)
    requires CutAt(s, '/', x, y) && SpellsRange(x, r) && Atoi(y) == Ok(step)
    ensures Spells(s, Form(r, Some(step)))
  {
    AtoiIff(y, step);
  }

  lemma DenotedIsParsed(s: string, min: int, max: int, f: Form)
    requires Spells(s, f)
    requires var p := Meaning(f, min, max); min <= p.lo <= p.hi <= max && p.step > 0
    ensures ParsePart(s, min, max) == Ok(Meaning(f, min, max))
  {
    match f.step
    case None =>
      NoIndex(s, '/');
      BoundsIff(s, f.range);
    case Some(k) =>
      var x, y :| CutAt(s, '/', x, y) && SpellsRange(x, f.range) && Numeral(y, k);
      CutUnique(s, '/', x, y);
      AtoiIff(y, k);
      BoundsIff(x, f.range);
  }

  // ----- the field -----

  /** A field is well formed when each of its comma-separated parts denotes something. */
  ghost predicate WellFormed(field: string, min: int, max: int) {
    forall i | 0 <= i < |Split(field, ',')| :: DenotesSome(Split(field, ',')[i], min, max)
  }

  /** v belongs to one of the field's parts, as the crontab rules read them. */
  ghost predicate Selects(field: string, min: int, max: int, v: int) {
    exists i, p :: 0 <= i < |Split(field, ',')| && DenotesPart(Split(field, ',')[i], min, max, p) && InPart(p, v)
  }

  /** One of the field's parts puts v into it. */
  ghost predicate Holds(field: string, min: int, max: int, v: int) {
    HeldByFirst(Split(field, ','), |Split(field, ',')|, min, max, v)
  }

  /** One of the first k parts puts v into the field. */
  ghost predicate HeldByFirst(parts: seq<string>, k: nat, min: int, max: int, v: int)
    requires k <= |parts|
  {
    exists i, p :: 0 <= i < k && DenotesPart(parts[i], min, max, p) && Yields(p, v)
  }

  /** Every part of the field steps within 64 bits. */
  ghost predicate FieldFits(field: string, min: int, max: int) {
    forall i, p | 0 <= i < |Split(field, ',')| && DenotesPart(Split(field, ',')[i], min, max, p) :: p.Fits()
  }

  lemma OnePartMore(parts: seq<string>, k: nat, min: int, max: int, p: Part)
    requires k < |parts| && ParsePart(parts[k], min, max) == Ok(p)
    ensures DenotesSome(parts[k], min, max)
    ensures forall v :: HeldByFirst(parts, k + 1, min, max, v) <==> HeldByFirst(parts, k, min, max, v) || Yields(p, v)
  {
    forall q ensures DenotesPart(parts[k], min, max, q) <==> q == p {
      ParsePartIff(parts[k], min, max, q);
    }
    assert DenotesPart(parts[k], min, max, p);
  }

  lemma NotDenoted(s: string, min: int, max: int)
    requires ParsePart(s, min, max).Err?
    ensures !DenotesSome(s, min, max)
  {
    forall p ensures !DenotesPart(s, min, max, p) {
      ParsePartIff(s, min, max, p);
    }
  }

  /** The values of a field: an error exactly when a part is malformed or out of range, else exactly the values its
    * parts put into it. */
  method ParseField(field: string, min: int, max: int) returns (r: Result<set<int>>)
    requires 0 <= min && max <= 59
    ensures r.Ok? <==> WellFormed(field, min, max)
    ensures r.Ok? ==> forall v :: v in r.value <==> Holds(field, min, max, v)
  {
    var out: set<int> := {};
    var parts := Split(field, ',');
    for k := 0 to |parts|
      invariant forall i | 0 <= i < k :: DenotesSome(parts[i], min, max)
      invariant forall v :: v in out <==> HeldByFirst(parts, k, min, max, v)
    {
      var p := ParsePart(parts[k], min, max);
      if p.Err? {
        NotDenoted(parts[k], min, max);
        return Err;
      }
      out := AddProgression(out, p.value);
      OnePartMore(parts, k, min, max, p.value);
    }
    return Ok(out);
  }

  /** Adds a part to the values so far; the counter is a 64-bit integer. */
  method AddProgression(before: set<int>, part: Part) returns (out: set<int>)
    requires Small(part)
    ensures forall v :: v in out <==> v in before || Yields(part, v)
  {
    out := before;
    var i := part.lo;
    Begin(part);
    while i <= part.hi
      invariant Counter(part, i)
      invariant forall v :: v in out <==> v in before || Added(part, i, v)
      decreases Ahead(part, i)
    {
      Step(part, i);
      out := out + {i};
      i := Wrap64(i + part.step);
    }
    End(part, i);
  }

  /** Parts of a field of a cron line. */
  predicate Small(p: Part) {
    0 <= p.lo <= p.hi <= 59 && 0 < p.step < INT64
  }

  /** The values the counter takes: up the progression, or down the descent, through its troughs, and out above. */
  predicate Counter(p: Part, i: int) {
    if p.Fits() then p.step > 0 && p.lo <= i && (i - p.lo) % p.step == 0
    else i > p.hi || OnDescent(p, i) || InTrough(p, i)
  }

  /** v has been added when the counter is at i. */
  predicate Added(p: Part, i: int, v: int) {
    if p.Fits() then InPart(p, v) && v < i
    else if i > p.hi then OnDescent(p, v) || InTrough(p, v)
    else if InTrough(p, i) then (OnDescent(p, v) && v >= i + INT64 + p.Slack()) || (InTrough(p, v) && v > i)
    else (OnDescent(p, v) && v > i) || (InTrough(p, v) && v + INT64 + p.Slack() > i)
  }

  /** Bounds how many values are still to be added. */
  function Ahead(p: Part, i: int): nat {
    if i > p.hi then 0
    else if p.Fits() then p.hi - i + 1
    else if OnDescent(p, i) then 2 * (i + p.Slack()) + 2
    else if InTrough(p, i) then 2 * (i + INT64 + 2 * p.Slack()) + 1
    else 0
  }

  lemma Begin(p: Part)
    requires Small(p)
    ensures Counter(p, p.lo) && forall v :: !Added(p, p.lo, v)
  {
    ModOfMultiple(0, p.step, 0);
    ModOfMultiple(0, 2 * p.Slack(), 0);
    if !p.Fits() {
      assert OnDescent(p, p.lo) && !InTrough(p, p.lo);
    }
  }

  lemma Step(p: Part, i: int)
    requires Small(p) && Counter(p, i) && i <= p.hi
    ensures var next := Wrap64(i + p.step);
            && Counter(p, next) && Ahead(p, next) < Ahead(p, i)
            && forall v :: Added(p, next, v) <==> Added(p, i, v) || v == i
  {
    if p.Fits() {
      StepUp(p, i);
    } else if InTrough(p, i) {
      StepFromTrough(p, i);
    } else {
      StepDown(p, i);
    }
  }

  lemma StepUp(p: Part, i: int)
    requires Small(p) && p.Fits() && Counter(p, i) && i <= p.hi
    ensures Wrap64(i + p.step) == i + p.step && Counter(p, i + p.step) && Ahead(p, i + p.step) < Ahead(p, i)
    ensures forall v :: Added(p, i + p.step, v) <==> Added(p, i, v) || v == i
  {
    StaysWithin(p, i);
    NextInProgression(p, i);
    AddedUp(p, i);
  }

  lemma StaysWithin(p: Part, i: int)
    requires Small(p) && p.Fits() && Counter(p, i) && i <= p.hi
    ensures Wrap64(i + p.step) == i + p.step
  {
    if p.step > 59 {
      FirstIsFar(p, i);
    }
  }

  lemma AddedUp(p: Part, i: int)
    requires Small(p) && p.Fits() && Counter(p, i) && i <= p.hi
    ensures forall v :: Added(p, i + p.step, v) <==> Added(p, i, v) || v == i
  {
    NextInProgression(p, i);
    assert InPart(p, i);
    forall v ensures Added(p, i + p.step, v) <==> Added(p, i, v) || v == i {
      if i < v < i + p.step {
        assert !InPart(p, v);
      }
    }
  }

  /** A step that reaches far never leads to a second value of the progression. */
  lemma FirstIsFar(p: Part, i: int)
    requires Small(p) && p.lo <= i <= p.hi && (i - p.lo) % p.step == 0 && p.step > 59
    ensures i == p.lo
  {
    if i != p.lo {
      assert 0 < i - p.lo < p.step;
      ModOfMultiple(0, p.step, i - p.lo);
    }
  }

  /** The addition on the descent wraps to a trough, or leaves the field at its foot. */
  lemma StepDown(p: Part, i: int)
    requires Small(p) && !p.Fits() && OnDescent(p, i) && !InTrough(p, i)
    ensures var next := Wrap64(i + p.step);
            && Counter(p, next) && Ahead(p, next) < Ahead(p, i)
            && forall v :: Added(p, next, v) <==> Added(p, i, v) || v == i
  {
    if i >= p.Slack() {
      StepToTrough(p, i);
    } else {
      StepOffFoot(p, i);
    }
  }

  lemma StepToTrough(p: Part, i: int)
    requires Small(p) && !p.Fits() && OnDescent(p, i) && !InTrough(p, i) && i >= p.Slack()
    ensures var next := Wrap64(i + p.step);
            && Counter(p, next) && Ahead(p, next) < Ahead(p, i)
            && forall v :: Added(p, next, v) <==> Added(p, i, v) || v == i
  {
    var next := Wrap64(i + p.step);
    assert next == i - p.Slack() - INT64;
    assert InTrough(p, next) && !OnDescent(p, next);
  }

  lemma StepOffFoot(p: Part, i: int)
    requires Small(p) && !p.Fits() && OnDescent(p, i) && !InTrough(p, i) && i < p.Slack()
    ensures var next := Wrap64(i + p.step);
            && Counter(p, next) && Ahead(p, next) < Ahead(p, i)
            && forall v :: Added(p, next, v) <==> Added(p, i, v) || v == i
  {
    assert 0 < p.Slack() <= p.lo;
    assert Wrap64(i + p.step) == i + p.step > p.hi;
    forall v | OnDescent(p, v) ensures v >= i {
      BelowNone(p, i, v);
    }
  }

  /** Below the foot of the descent there is nothing. */
  lemma BelowNone(p: Part, i: int, v: int)
    requires OnDescent(p, i) && OnDescent(p, v) && i < p.Slack()
    ensures v >= i
  {
    if v < i {
      NextInProgression(Part(0, p.lo - v, 2 * p.Slack()), p.lo - i);
      assert 0 <= p.lo - i;
      assert InPart(Part(0, p.lo - v, 2 * p.Slack()), p.lo - v);
    }
  }

  /** Values on the descent are twice the slack apart. */
  lemma DescentGap(p: Part, j: int, v: int)
    requires OnDescent(p, j) && OnDescent(p, v) && v > j - 2 * p.Slack()
    ensures v >= j
  {
    if v < j {
      NextInProgression(Part(0, p.lo + p.Slack(), 2 * p.Slack()), p.lo - j);
      assert InPart(Part(0, p.lo + p.Slack(), 2 * p.Slack()), p.lo - v);
    }
  }

  /** The addition in a trough comes back to the descent, twice the slack further down. */
  lemma TroughLeads(p: Part, i: int)
    requires Small(p) && !p.Fits() && InTrough(p, i)
    ensures var next := Wrap64(i + p.step);
            && next == i + INT64 - p.Slack() && OnDescent(p, next) && !InTrough(p, next) && !OnDescent(p, i)
            && Counter(p, next) && Ahead(p, next) < Ahead(p, i)
  {
    var j := i + INT64 + p.Slack();
    assert Wrap64(i + p.step) == j - 2 * p.Slack();
    NextInProgression(Part(0, p.lo + p.Slack(), 2 * p.Slack()), p.lo - j);
  }

  lemma StepFromTrough(p: Part, i: int)
    requires Small(p) && !p.Fits() && InTrough(p, i)
    ensures var next := Wrap64(i + p.step);
            && Counter(p, next) && Ahead(p, next) < Ahead(p, i)
            && forall v :: Added(p, next, v) <==> Added(p, i, v) || v == i
  {
    TroughLeads(p, i);
    forall v | OnDescent(p, v) && v > Wrap64(i + p.step) ensures v >= i + INT64 + p.Slack() {
      DescentGap(p, i + INT64 + p.Slack(), v);
    }
  }

  lemma End(p: Part, i: int)
    requires Small(p) && Counter(p, i) && i > p.hi
    ensures forall v :: Added(p, i, v) <==> Yields(p, v)
  {
    if p.Fits() {
      YieldsIffInPart(p);
    } else {
      forall v | InPart(p, v) ensures OnDescent(p, v) {
        FirstIsFar(p, v);
        ModOfMultiple(0, 2 * p.Slack(), 0);
      }
    }
  }

  /** A part that fits yields its progression; one that does not yields something below every field. */
  lemma YieldsIffInPart(p: Part)
    requires Small(p)
    ensures p.Fits() ==> forall v :: Yields(p, v) <==> InPart(p, v)
    ensures !p.Fits() ==> Yields(p, p.lo - p.Slack() - INT64)
  {
    var d := p.Slack();
    ModOfMultiple(0, 2 * d, 0);
    ModOfMultiple(0, p.step, 0);
    if p.Fits() {
      forall v | OnDescent(p, v) ensures v == p.lo {
        if v != p.lo {
          assert 0 < p.lo - v < 2 * d;
          ModOfMultiple(0, 2 * d, p.lo - v);
        }
      }
    } else {
      assert OnDescent(p, p.lo);
    }
  }

  /** The values a field holds are exactly those its text selects if and only if all its steps stay within 64 bits. */
  lemma HoldsIffSelected(field: string, min: int, max: int)
    requires 0 <= min && max <= 59
    ensures FieldFits(field, min, max) <==> forall v :: Holds(field, min, max, v) <==> Selects(field, min, max, v)
  {
    if FieldFits(field, min, max) {
      forall v ensures Holds(field, min, max, v) <==> Selects(field, min, max, v) {
        FittingFieldHolds(field, min, max, v);
      }
    } else {
      var i, p :| 0 <= i < |Split(field, ',')| && DenotesPart(Split(field, ',')[i], min, max, p) && !p.Fits();
      UnfittingFieldHolds(field, min, max, i, p);
    }
  }

  lemma {:induction false} UnfittingFieldHolds(field: string, min: int, max: int, i: nat, p: Part)
    requires 0 <= min && max <= 59
    requires i < |Split(field, ',')| && DenotesPart(Split(field, ',')[i], min, max, p) && !p.Fits()
    ensures exists v :: Holds(field, min, max, v) && !Selects(field, min, max, v)
  {
    ParsePartIff(Split(field, ',')[i], min, max, p);
    YieldsIffInPart(p);
    var v := p.lo - p.Slack() - INT64;
    assert v < 0;
    assert Holds(field, min, max, v) && !Selects(field, min, max, v);
  }

  lemma FittingFieldHolds(field: string, min: int, max: int, v: int)
    requires 0 <= min && max <= 59 && FieldFits(field, min, max)
    ensures Holds(field, min, max, v) <==> Selects(field, min, max, v)
  {
    var parts := Split(field, ',');
    forall i, p | 0 <= i < |parts| && DenotesPart(parts[i], min, max, p) ensures Yields(p, v) <==> InPart(p, v) {
      ParsePartIff(parts[i], min, max, p);
      YieldsIffInPart(p);
    }
  }

  /** Within its field a part holds a value too many exactly when its step wraps and comes back no lower than min. */
  lemma MisreadIff(p: Part, min: int)
    requires Small(p) && 0 <= min <= p.lo
    ensures (exists v :: min <= v && Yields(p, v) && !InPart(p, v)) <==> !p.Fits() && p.lo - 2 * p.Slack() >= min
  {
    var d := p.Slack();
    YieldsIffInPart(p);
    ModOfMultiple(1, 2 * d, 0);
    if p.lo - 2 * d >= min {
      assert OnDescent(p, p.lo - 2 * d);
      assert min <= p.lo - 2 * d && Yields(p, p.lo - 2 * d) && !InPart(p, p.lo - 2 * d);
    }
    if v :| min <= v && Yields(p, v) && !InPart(p, v) {
      assert OnDescent(p, v);
      ModOfMultiple(0, p.step, 0);
      assert v != p.lo;
      if p.lo - v < 2 * d {
        ModOfMultiple(0, 2 * d, p.lo - v);
      }
    }
  }

  lemma {:induction false} OneMoreDigit(s: string, d: char)
    requires Digits(s).Ok? && '0' <= d <= '9'
    ensures Digits(s + [d]) == Ok(Digits(s).value * 10 + (d as int - '0' as int))
  {
    assert (s + [d])[..|s|] == s;
  }

  /** Reading the rest of a number whose beginning has been read. */
  function ReadOn(n: int, s: string): int
    decreases |s|
  {
    if s == [] then n else ReadOn(n * 10 + (s[0] as int - '0' as int), s[1..])
  }

  lemma {:induction false} DigitsReadOn(a: string, b: string)
    requires Digits(a).Ok? && forall i | 0 <= i < |b| :: '0' <= b[i] <= '9'
    ensures Digits(a + b) == Ok(ReadOn(Digits(a).value, b))
    decreases |b|
  {
    if b == [] {
      assert a + b == a;
    } else {
      OneMoreDigit(a, b[0]);
      DigitsReadOn(a + [b[0]], b[1..]);
      assert a + [b[0]] + b[1..] == a + b;
    }
  }

  /** A field of a single part holds and selects what that part yields and denotes. */
  lemma {:induction false} OnePartField(text: string, min: int, max: int, p: Part, v: int)
    requires Split(text, ',') == [text] && ParsePart(text, min, max) == Ok(p)
    ensures WellFormed(text, min, max)
    ensures Holds(text, min, max, v) <==> Yields(p, v)
    ensures Selects(text, min, max, v) <==> InPart(p, v)
  {
    assert Split(text, ',')[0] == text;
    forall q ensures DenotesPart(text, min, max, q) <==> q == p {
      ParsePartIff(text, min, max, q);
    }
    assert DenotesPart(text, min, max, p);
  }

  const HUGE := "9223372036854775807"

  /** A minute field that is accepted and holds minute 1, which its text does not select. */
  lemma MisreadField()
    ensures var text := "3/" + HUGE;
            WellFormed(text, 0, 59) && Holds(text, 0, 59, 1) && !Selects(text, 0, 59, 1)
  {
    var text, part := "3/" + HUGE, Part(3, 59, INT64 - 1);
    HugePart(text);
    assert OnDescent(part, 1) && !InPart(part, 1);
    OnePartField(text, 0, 59, part, 1);
  }

  lemma {:induction false} HugePart(text: string)
    requires text == "3/" + HUGE
    ensures Split(text, ',') == [text] && ParsePart(text, 0, 59) == Ok(Part(3, 59, INT64 - 1))
  {
    HugeDigits();
    OneMoreDigit("", '3');
    assert "" + ['3'] == "3";
    assert text == "3" + "/" + HUGE;
    SteppedPart("3", HUGE, 3, INT64 - 1, 0, 59);
    NoComma(text);
  }

  lemma {:induction false} NoComma(text: string)
    requires text == "3/" + HUGE
    ensures Split(text, ',') == [text]
  {
    assert ',' !in HUGE;
    assert ',' !in text;
  }

  lemma {:induction false} FirstIndex(s: string, c: char, i: nat)
    requires i < |s| && s[i] == c && c !in s[..i]
    ensures IndexOf(s, c) == Some(i)
  {
    if i > 0 {
      assert s[..i] == [s[0]] + s[1..][..i - 1];
      FirstIndex(s[1..], c, i - 1);
    }
  }

  /** A single value with a step. */
  lemma {:induction false} SteppedPart(a: string, b: string, lo: int, step: int, min: int, max: int)
    requires a != [] && b != [] && '0' <= a[0] <= '9' && '0' <= b[0] <= '9' && '/' !in a && '-' !in a
    requires Digits(a) == Ok(lo) && Digits(b) == Ok(step)
    requires 0 <= min <= lo <= max < INT64 && 0 < step < INT64
    ensures ParsePart(a + "/" + b, min, max) == Ok(Part(lo, max, step))
  {
    var text := a + "/" + b;
    assert text[|a|] == '/';
    assert text[..|a|] == a;
    FirstIndex(text, '/', |a|);
    assert text[..|a|] == a && text[|a| + 1..] == b;
    assert IndexOf(a, '-') == None;
  }

  lemma HugeDigits()
    ensures Digits(HUGE) == Ok(INT64 - 1)
  {
    assert "" + HUGE == HUGE;
    DigitsReadOn("", HUGE);
    FirstHalf();
    SecondHalf();
  }

  lemma FirstHalf()
    ensures ReadOn(0, HUGE) == ReadOn(92233720, "36854775807")
  {
    ReadOnFour(0, HUGE);
    assert HUGE[4..] == "372036854775807";
    ReadOnFour(9223, "372036854775807");
    assert "372036854775807"[4..] == "36854775807";
  }

  lemma SecondHalf()
    ensures ReadOn(92233720, "36854775807") == INT64 - 1
  {
    ReadOnFour(92233720, "36854775807");
    assert "36854775807"[4..] == "4775807";
    ReadOnFour(922337203685, "4775807");
    assert "4775807"[4..] == "807";
    ReadOnThree(9223372036854775, "807");
  }

  lemma ReadOnFour(n: int, s: string)
    requires |s| >= 4
    ensures ReadOn(n, s) == ReadOn(n * 10000 + (s[0] as int - '0' as int) * 1000 + (s[1] as int - '0' as int) * 100
                                   + (s[2] as int - '0' as int) * 10 + (s[3] as int - '0' as int), s[4..])
  {
    ReadOnTwo(n, s);
    ReadOnTwo(n * 100 + (s[0] as int - '0' as int) * 10 + (s[1] as int - '0' as int), s[2..]);
    assert s[2..][2..] == s[4..];
  }

  lemma ReadOnTwo(n: int, s: string)
    requires |s| >= 2
    ensures ReadOn(n, s) == ReadOn(n * 100 + (s[0] as int - '0' as int) * 10 + (s[1] as int - '0' as int), s[2..])
  {
    assert s[1..][1..] == s[2..];
    var m := n * 10 + (s[0] as int - '0' as int);
    assert ReadOn(m, s[1..]) == ReadOn(m * 10 + (s[1] as int - '0' as int), s[1..][1..]);
  }

  lemma {:induction false} ReadOnThree(n: int, s: string)
    requires |s| == 3
    ensures ReadOn(n, s) == n * 1000 + (s[0] as int - '0' as int) * 100 + (s[1] as int - '0' as int) * 10 + (s[2] as int - '0' as int)
  {
    ReadOnTwo(n, s);
    var m := n * 100 + (s[0] as int - '0' as int) * 10 + (s[1] as int - '0' as int);
    assert s[2..] == [s[2]];
    assert [s[2]][1..] == [];
    assert ReadOn(m, [s[2]]) == ReadOn(m * 10 + (s[2] as int - '0' as int), []);
  }

  /** Between two successive members of a progression there is none. */
  lemma NextInProgression(p: Part, i: int)
    requires p.step > 0 && (i - p.lo) % p.step == 0
    ensures (i + p.step - p.lo) % p.step == 0
    ensures forall v | i < v < i + p.step :: !InPart(p, v)
  {
    var q := (i - p.lo) / p.step;
    assert i - p.lo == q * p.step;
    ModOfMultiple(q + 1, p.step, 0);
    assert (q + 1) * p.step == i + p.step - p.lo;
    forall v | i < v < i + p.step ensures !InPart(p, v) {
      ModOfMultiple(q, p.step, v - i);
    }
  }

  lemma ModOfMultiple(q: int, d: int, r: int)
    requires 0 <= r < d
    ensures (q * d + r) % d == r
  {
    var x := q * d + r;
    SameQuotient(q, x / d, d, r, x % d);
  }

  lemma SameQuotient(a: int, b: int, d: int, r: int, s: int)
    requires 0 <= r < d && 0 <= s < d
    requires a * d + r == b * d + s
    ensures a == b && r == s
  {
    var k := a - b;
    assert k * d == s - r;
    MulAtLeast(k, d);
    MulAtLeast(-k, d);
    assert (-k) * d == -(k * d);
  }

  lemma MulAtLeast(k: int, d: int)
    requires d > 0
    ensures k >= 1 ==> k * d >= d
  {
  }

  // ----- the whole expression -----

  /** What a parsed schedule must be for an expression; there is none when the expression is malformed. */
  ghost predicate Denotes(expr: string, s: Schedule) {
    var f := FieldsOf(expr, []);
    && WellFormedCron(expr)
    && (forall v :: v in s.minutes <==> Holds(f[0], 0, 59, v))
    && (forall v :: v in s.hours <==> Holds(f[1], 0, 23, v))
    && (forall v :: v in s.doms <==> Holds(f[2], 1, 31, v))
    && (forall v :: v in s.months <==> Holds(f[3], 1, 12, v))
    && (forall v :: v in s.dows <==> Holds(f[4], 0, 7, v) || (v == 0 && Holds(f[4], 0, 7, 7)))
    && (s.domStar <==> f[2] == "*")
    && (s.dowStar <==> f[4] == "*")
  }

  ghost predicate WellFormedCron(expr: string) {
    var f := FieldsOf(expr, []);
    && |f| == 5
    && WellFormed(f[0], 0, 59) && WellFormed(f[1], 0, 23) && WellFormed(f[2], 1, 31)
    && WellFormed(f[3], 1, 12) && WellFormed(f[4], 0, 7)
  }

  method ParseCron(expr: string) returns (r: Result<Schedule>)
    ensures r.Ok? <==> WellFormedCron(expr)
    ensures r.Ok? ==> Denotes(expr, r.value)
  {
    var f := FieldsOf(expr, []);
    if |f| != 5 {
      return Err;
    }
    var minutes := ParseField(f[0], 0, 59);
    if minutes.Err? { return Err; }
    var hours := ParseField(f[1], 0, 23);
    if hours.Err? { return Err; }
    var doms := ParseField(f[2], 1, 31);
    if doms.Err? { return Err; }
    var months := ParseField(f[3], 1, 12);
    if months.Err? { return Err; }
    var dows := ParseField(f[4], 0, 7);
    if dows.Err? { return Err; }
    var days := dows.value;
    if 7 in days {
      days := days + {0};
    }
    r := Ok(Schedule(minutes.value, hours.value, doms.value, months.value, days, f[2] == "*", f[4] == "*"));
  }

  lemma DenotesUnique(expr: string, a: Schedule, b: Schedule)
    requires Denotes(expr, a) && Denotes(expr, b)
    ensures a == b
  {
    assert forall v :: v in a.minutes <==> v in b.minutes;
    assert forall v :: v in a.hours <==> v in b.hours;
    assert forall v :: v in a.doms <==> v in b.doms;
    assert forall v :: v in a.months <==> v in b.months;
    assert forall v :: v in a.dows <==> v in b.dows;
  }

  predicate Matches(s: Schedule, t: Civil) {
    && t.minute in s.minutes && t.hour in s.hours && t.month in s.months
    && (if !s.domStar && !s.dowStar then t.day in s.doms || t.weekday in s.dows
        else if !s.domStar then t.day in s.doms
        else if !s.dowStar then t.weekday in s.dows
        else true)
  }

  lemma StarSelectsAll(min: int, max: int, v: int)
    requires min <= v <= max
    ensures Selects("*", min, max, v)
  {
    assert IndexOf("*", ',') == None && IndexOf("*", '/') == None;
    assert Split("*", ',') == ["*"];
    assert Split("*", ',')[0] == "*";
    assert Spells("*", Form(Star, None));
    assert Meaning(Form(Star, None), min, max) == Part(min, max, 1);
    assert DenotesPart("*", min, max, Part(min, max, 1));
    assert InPart(Part(min, max, 1), v);
  }

  /** Every step of the five fields stays within 64 bits. */
  ghost predicate CronFits(expr: string) {
    var f := FieldsOf(expr, []);
    && WellFormedCron(expr)
    && FieldFits(f[0], 0, 59) && FieldFits(f[1], 0, 23) && FieldFits(f[2], 1, 31)
    && FieldFits(f[3], 1, 12) && FieldFits(f[4], 0, 7)
  }

  /** Day rule: a literal "*" leaves that day field unrestricted, so then both fields must accept the day
    * (a "*" accepts every day); with neither a "*", one acceptance is enough. */
  lemma {:induction false} DayRule(expr: string, s: Schedule, t: Civil)
    requires Denotes(expr, s) && CronFits(expr)
    requires 1 <= t.day <= 31 && 0 <= t.weekday <= 6
    ensures var f := FieldsOf(expr, []);
            var dom := Selects(f[2], 1, 31, t.day);
            var dow := Selects(f[4], 0, 7, t.weekday) || (t.weekday == 0 && Selects(f[4], 0, 7, 7));
            Matches(s, t) <==>
              && Selects(f[0], 0, 59, t.minute) && Selects(f[1], 0, 23, t.hour) && Selects(f[3], 1, 12, t.month)
              && (if f[2] == "*" || f[4] == "*" then dom && dow else dom || dow)
  {
    var f := FieldsOf(expr, []);
    HoldsIffSelected(f[0], 0, 59);
    HoldsIffSelected(f[1], 0, 23);
    HoldsIffSelected(f[2], 1, 31);
    HoldsIffSelected(f[3], 1, 12);
    HoldsIffSelected(f[4], 0, 7);
    StarSelectsAll(1, 31, t.day);
    StarSelectsAll(0, 7, t.weekday);
  }

  // ----- openings -----

  predicate Fires(s: Schedule, cal: Calendar, minute: int) {
    Matches(s, cal(minute))
  }

  /** The window is open: some firing minute, however far back, lies at most its duration before now. */
  ghost predicate Open(s: Schedule, cal: Calendar, duration: int, now: int) {
    exists m :: Fires(s, cal, m) && m * MINUTE <= now < m * MINUTE + duration
  }

  /** The window the text describes is open; zones give each zone name its calendar, if it has one. */
  ghost predicate WindowOpen(w: CronWindow, zones: string -> Option<Calendar>, now: int)
    requires Usable(w, zones)
  {
    exists s :: Denotes(w.cron, s) && Open(s, zones(w.timeZone).value, w.duration, now)
  }

  /** The window can be evaluated at all. */
  ghost predicate Usable(w: CronWindow, zones: string -> Option<Calendar>) {
    WellFormedCron(w.cron) && zones(w.timeZone).Some? && w.duration > 0
  }

  lemma WindowOpenIs(w: CronWindow, zones: string -> Option<Calendar>, now: int, s: Schedule)
    requires Usable(w, zones) && Denotes(w.cron, s)
    ensures WindowOpen(w, zones, now) <==> Open(s, zones(w.timeZone).value, w.duration, now)
  {
    if WindowOpen(w, zones, now) {
      var s' :| Denotes(w.cron, s') && Open(s', zones(w.timeZone).value, w.duration, now);
      DenotesUnique(w.cron, s, s');
    }
  }

  /** The backward scan: it looks no further than the duration and misses no opening. */
  method ScanBack(s: Schedule, cal: Calendar, duration: int, now: int) returns (open: bool)
    requires duration > 0
    ensures open <==> Open(s, cal, duration, now)
  {
    var cursor := now / MINUTE;
    var steps := duration / MINUTE + 1;
    for i := 0 to steps + 1
      invariant forall m | cursor - i < m <= cursor :: !(Fires(s, cal, m) && m * MINUTE + duration > now)
    {
      var t := cursor - i;
      if Matches(s, cal(t)) && t * MINUTE + duration > now {
        assert Fires(s, cal, t);
        return true;
      }
    }
    return false;
  }

  method IsOpen(w: CronWindow, zones: string -> Option<Calendar>, now: int) returns (r: Result<bool>)
    ensures r.Ok? <==> Usable(w, zones)
    ensures r.Ok? ==> (r.value <==> WindowOpen(w, zones, now))
  {
    var parsed := ParseCron(w.cron);
    if parsed.Err? {
      return Err;
    }
    var loc := zones(w.timeZone);
    if loc.None? || w.duration <= 0 {
      return Err;
    }
    var open := ScanBack(parsed.value, loc.value, w.duration, now);
    WindowOpenIs(w, zones, now, parsed.value);
    return Ok(open);
  }

  /** m is the first firing minute strictly after now, and within the lookahead. */
  ghost predicate FirstAhead(s: Schedule, cal: Calendar, now: int, m: int) {
    && Fires(s, cal, m)
    && now / MINUTE < m <= now / MINUTE + MAX_LOOKAHEAD_MINUTES
    && forall k | now / MINUTE < k < m :: !Fires(s, cal, k)
  }

  /** No firing minute after now within the lookahead. */
  ghost predicate NoneAhead(s: Schedule, cal: Calendar, now: int) {
    forall k | now / MINUTE < k <= now / MINUTE + MAX_LOOKAHEAD_MINUTES :: !Fires(s, cal, k)
  }

  /** A minute is strictly after now exactly when its number exceeds that of now. */
  lemma StrictlyAfter(now: int, m: int)
    ensures now < m * MINUTE <==> now / MINUTE < m
  {
  }

  method ScanAhead(s: Schedule, cal: Calendar, now: int) returns (r: Option<int>)
    ensures match r case Some(m) => FirstAhead(s, cal, now, m) case None => NoneAhead(s, cal, now)
  {
    var t := now / MINUTE + 1;
    for i := 0 to MAX_LOOKAHEAD_MINUTES
      invariant t == now / MINUTE + 1 + i
      invariant forall m | now / MINUTE < m < t :: !Fires(s, cal, m)
    {
      if Matches(s, cal(t)) {
        assert Fires(s, cal, t);
        return Some(t);
      }
      t := t + 1;
    }
    return None;
  }

  /** The text and the zone can be read: what NextOpen needs, which unlike IsOpen ignores the duration. */
  ghost predicate Readable(w: CronWindow, zones: string -> Option<Calendar>) {
    WellFormedCron(w.cron) && zones(w.timeZone).Some?
  }

  /** A next opening is the start of a minute, after now and no more than 366 days on. */
  lemma NextOpenSpan(w: CronWindow, zones: string -> Option<Calendar>, now: int, at: int)
    requires NextAt(w, zones, now, at)
    ensures at % 60_000_000_000 == 0 && now < at <= now + 366 * 86_400 * 1_000_000_000
  {
    var s :| Denotes(w.cron, s) && at % MINUTE == 0 && FirstAhead(s, zones(w.timeZone).value, now, at / MINUTE);
    StrictlyAfter(now, at / MINUTE);
  }

  /** at is the first opening instant strictly after now, and within the lookahead. */
  ghost predicate IsNextOpen(w: CronWindow, zones: string -> Option<Calendar>, now: int, at: int)
    requires Readable(w, zones)
  {
    exists s :: Denotes(w.cron, s) && at % MINUTE == 0 && FirstAhead(s, zones(w.timeZone).value, now, at / MINUTE)
  }

  /** The window does not open after now within the lookahead. */
  ghost predicate NeverAhead(w: CronWindow, zones: string -> Option<Calendar>, now: int)
    requires Readable(w, zones)
  {
    exists s :: Denotes(w.cron, s) && NoneAhead(s, zones(w.timeZone).value, now)
  }

  ghost predicate NextAt(w: CronWindow, zones: string -> Option<Calendar>, now: int, at: int) {
    Readable(w, zones) && IsNextOpen(w, zones, now, at)
  }

  ghost predicate NoNext(w: CronWindow, zones: string -> Option<Calendar>, now: int) {
    Readable(w, zones) ==> NeverAhead(w, zones, now)
  }

  /** A window has a next opening or none, never both, so NextOpen is an error exactly when there is none. */
  lemma NextExcludesNone(w: CronWindow, zones: string -> Option<Calendar>, now: int, at: int)
    requires NextAt(w, zones, now, at)
    ensures !NoNext(w, zones, now)
  {
    var cal := zones(w.timeZone).value;
    var s :| Denotes(w.cron, s) && at % MINUTE == 0 && FirstAhead(s, cal, now, at / MINUTE);
    if NeverAhead(w, zones, now) {
      var s' :| Denotes(w.cron, s') && NoneAhead(s', cal, now);
      DenotesUnique(w.cron, s, s');
    }
  }

  method NextOpen(w: CronWindow, zones: string -> Option<Calendar>, now: int) returns (r: Result<int>)
    ensures r.Ok? ==> NextAt(w, zones, now, r.value)
    ensures r.Err? ==> NoNext(w, zones, now)
  {
    var parsed := ParseCron(w.cron);
    if parsed.Err? {
      return Err;
    }
    var loc := zones(w.timeZone);
    if loc.None? {
      return Err;
    }
    var m := ScanAhead(parsed.value, loc.value, now);
    if m.None? {
      return Err;
    }
    assert m.value * MINUTE / MINUTE == m.value;
    return Ok(m.value * MINUTE);
  }

  /** A window open at x but closed at an earlier now has fired in between. */
  lemma OpeningSince(s: Schedule, cal: Calendar, duration: int, now: int, x: int)
    requires now <= x && !Open(s, cal, duration, now) && Open(s, cal, duration, x)
    ensures exists k :: Fires(s, cal, k) && now / MINUTE < k <= x / MINUTE
  {
    var k :| Fires(s, cal, k) && k * MINUTE <= x < k * MINUTE + duration;
    StrictlyAfter(now, k);
  }

  /** A window that is closed now stays closed at every instant until the next opening, and is open then. */
  lemma ClosedUntilNextOpen(w: CronWindow, zones: string -> Option<Calendar>, now: int, at: int)
    requires Usable(w, zones)
    requires !WindowOpen(w, zones, now)
    requires IsNextOpen(w, zones, now, at)
    ensures now < at && WindowOpen(w, zones, at)
    ensures forall x | now <= x < at :: !WindowOpen(w, zones, x)
  {
    var cal := zones(w.timeZone).value;
    var s :| Denotes(w.cron, s) && at % MINUTE == 0 && FirstAhead(s, cal, now, at / MINUTE);
    var m := at / MINUTE;
    assert at == m * MINUTE;
    assert Fires(s, cal, m) && m * MINUTE <= at < m * MINUTE + w.duration;
    WindowOpenIs(w, zones, at, s);
    WindowOpenIs(w, zones, now, s);
    forall x | now <= x < at ensures !WindowOpen(w, zones, x) {
      WindowOpenIs(w, zones, x, s);
      if Open(s, cal, w.duration, x) {
        OpeningSince(s, cal, w.duration, now, x);
      }
    }
  }

  /** When there is no opening ahead, a closed window stays closed for the whole lookahead. */
  lemma ClosedThroughLookahead(w: CronWindow, zones: string -> Option<Calendar>, now: int, x: int)
    requires Usable(w, zones)
    requires !WindowOpen(w, zones, now)
    requires NeverAhead(w, zones, now)
    requires now <= x < (now / MINUTE + MAX_LOOKAHEAD_MINUTES + 1) * MINUTE
    ensures !WindowOpen(w, zones, x)
  {
    var cal := zones(w.timeZone).value;
    var s :| Denotes(w.cron, s) && NoneAhead(s, cal, now);
    WindowOpenIs(w, zones, x, s);
    WindowOpenIs(w, zones, now, s);
    if Open(s, cal, w.duration, x) {
      OpeningSince(s, cal, w.duration, now, x);
    }
  }

  /** That is for 366 days at least. */
  lemma ClosedForDays(w: CronWindow, zones: string -> Option<Calendar>, now: int, x: int)
    requires Usable(w, zones) && !WindowOpen(w, zones, now) && NoNext(w, zones, now)
    requires now <= x <= now + 366 * 86_400 * 1_000_000_000
    ensures !WindowOpen(w, zones, x)
  {
    LookaheadReaches(now, x);
    ClosedThroughLookahead(w, zones, now, x);
  }

  lemma LookaheadReaches(now: int, x: int)
    requires x <= now + 366 * 86_400 * 1_000_000_000
    ensures x < (now / MINUTE + MAX_LOOKAHEAD_MINUTES + 1) * MINUTE
  {
  }

  // ----- several windows -----

  /** The i-th window is the first that is open or cannot be evaluated. */
  ghost predicate FirstNotClosed(windows: seq<CronWindow>, zones: string -> Option<Calendar>, now: int, i: nat) {
    && i <= |windows|
    && (forall j | 0 <= j < i :: Usable(windows[j], zones) && !WindowOpen(windows[j], zones, now))
    && (i < |windows| ==> Usable(windows[i], zones) ==> WindowOpen(windows[i], zones, now))
  }

  /** r is the verdict of the first window that is not closed: open when there are no windows or it is open, an error
    * when it cannot be evaluated. */
  ghost predicate Decides(windows: seq<CronWindow>, zones: string -> Option<Calendar>, now: int, r: Result<bool>) {
    if windows == [] then r == Ok(true)
    else
      exists i: nat :: FirstNotClosed(windows, zones, now, i)
        && r == if i == |windows| then Ok(false) else if Usable(windows[i], zones) then Ok(true) else Err
  }

  /** Windows after the one that decides are not looked at. */
  method AnyOpen(windows: seq<CronWindow>, zones: string -> Option<Calendar>, now: int) returns (r: Result<bool>)
    ensures Decides(windows, zones, now, r)
  {
    if |windows| == 0 {
      return Ok(true);
    }
    for i := 0 to |windows|
      invariant forall j | 0 <= j < i :: Usable(windows[j], zones) && !WindowOpen(windows[j], zones, now)
    {
      var open := IsOpen(windows[i], zones, now);
      if open.Err? {
        assert FirstNotClosed(windows, zones, now, i);
        return Err;
      }
      if open.value {
        assert FirstNotClosed(windows, zones, now, i);
        return Ok(true);
      }
    }
    assert FirstNotClosed(windows, zones, now, |windows|);
    return Ok(false);
  }

  /** The window has a next opening, and not before best. */
  ghost predicate OpensNoSooner(w: CronWindow, zones: string -> Option<Calendar>, now: int, best: int) {
    exists at :: NextAt(w, zones, now, at) && best <= at
  }

  ghost predicate NoneSooner(windows: seq<CronWindow>, zones: string -> Option<Calendar>, now: int, best: int) {
    forall i | 0 <= i < |windows| :: OpensNoSooner(windows[i], zones, now, best)
  }

  /** best is the next opening of some window, and none of the windows has an earlier one. */
  ghost predicate IsSoonest(windows: seq<CronWindow>, zones: string -> Option<Calendar>, now: int, best: int) {
    NoneSooner(windows, zones, now, best) && exists k :: 0 <= k < |windows| && NextAt(windows[k], zones, now, best)
  }

  ghost predicate SomeNever(windows: seq<CronWindow>, zones: string -> Option<Calendar>, now: int) {
    exists i :: 0 <= i < |windows| && NoNext(windows[i], zones, now)
  }

  lemma FoundNever(windows: seq<CronWindow>, zones: string -> Option<Calendar>, now: int, i: nat)
    requires i < |windows| && NoNext(windows[i], zones, now)
    ensures SomeNever(windows, zones, now)
  {
  }

  /** nexts holds the next openings of the first windows. */
  ghost predicate AllNext(windows: seq<CronWindow>, zones: string -> Option<Calendar>, now: int, nexts: seq<int>) {
    |nexts| <= |windows| && forall j | 0 <= j < |nexts| :: NextAt(windows[j], zones, now, nexts[j])
  }

  lemma OneMoreNext(windows: seq<CronWindow>, zones: string -> Option<Calendar>, now: int, nexts: seq<int>, at: int)
    requires |nexts| < |windows|
    requires AllNext(windows, zones, now, nexts) && NextAt(windows[|nexts|], zones, now, at)
    ensures AllNext(windows, zones, now, nexts + [at])
  {
    var more := nexts + [at];
    forall j | 0 <= j < |more| ensures NextAt(windows[j], zones, now, more[j]) {
      assert more[j] == if j < |nexts| then nexts[j] else at;
    }
  }

  ghost predicate IsLeast(nexts: seq<int>, k: nat, best: int) {
    k < |nexts| && nexts[k] == best && forall i | 0 <= i < |nexts| :: best <= nexts[i]
  }

  lemma LeastOfMore(nexts: seq<int>, k: nat, best: int, at: int)
    requires nexts != [] ==> IsLeast(nexts, k, best)
    ensures nexts == [] || at < best ==> IsLeast(nexts + [at], |nexts|, at)
    ensures nexts != [] && at >= best ==> IsLeast(nexts + [at], k, best)
  {
  }

  lemma LeastIsSoonest(windows: seq<CronWindow>, zones: string -> Option<Calendar>, now: int, nexts: seq<int>, k: nat, best: int)
    requires |nexts| == |windows| && AllNext(windows, zones, now, nexts) && IsLeast(nexts, k, best)
    ensures IsSoonest(windows, zones, now, best)
  {
    forall i | 0 <= i < |windows| ensures OpensNoSooner(windows[i], zones, now, best) {
      assert NextAt(windows[i], zones, now, nexts[i]) && best <= nexts[i];
    }
    assert NextAt(windows[k], zones, now, nexts[k]);
  }

  /** The soonest of the windows' next openings; an error exactly when some window has none, or there is no window. */
  method NextOpenAny(windows: seq<CronWindow>, zones: string -> Option<Calendar>, now: int) returns (r: Result<int>)
    ensures r.Ok? ==> IsSoonest(windows, zones, now, r.value)
    ensures r.Err? ==> windows == [] || SomeNever(windows, zones, now)
  {
    var best := 0;
    var found := false;
    ghost var nexts, k := [], 0;
    for i := 0 to |windows|
      invariant |nexts| == i && AllNext(windows, zones, now, nexts)
      invariant found <==> i > 0
      invariant found ==> IsLeast(nexts, k, best)
    {
      var next := NextOpen(windows[i], zones, now);
      if next.Err? {
        FoundNever(windows, zones, now, i);
        return Err;
      }
      OneMoreNext(windows, zones, now, nexts, next.value);
      LeastOfMore(nexts, k, best, next.value);
      nexts := nexts + [next.value];
      if !found || next.value < best {
        best, k := next.value, i;
        found := true;
      }
    }
    if !found {
      return Err;
    }
    LeastIsSoonest(windows, zones, now, nexts, k, best);
    return Ok(best);
  }
}
