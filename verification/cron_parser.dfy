/** The parser of one crontab field, and what the fields of an expression mean. */
module CronParser {
  import opened Wrappers
  import opened CronSearch

  /** What the lexer delivers; `Illegal` stands for its error. */
  datatype Token = Star | Comma | Dash | Slash | Number(n: int) | Name(text: string) | Illegal

  datatype Kind = Minute | Hour | DayOfMonth | Month | DayOfWeek

  function Least(k: Kind): int {
    if k == DayOfMonth || k == Month then 1 else 0
  }

  /** The largest value that may be written; 7 is a second name for Sunday. */
  function Most(k: Kind): int {
    match k
    case Minute => 59
    case Hour => 23
    case DayOfMonth => 31
    case Month => 12
    case DayOfWeek => 7
  }

  /** The largest value that is stored. */
  function Top(k: Kind): int {
    if k == DayOfWeek then 6 else Most(k)
  }

  function Normalised(k: Kind, raw: int): int {
    if k == DayOfWeek && raw == 7 then 0 else raw
  }

  /** The values from lo to hi. */
  function MaskRange(lo: int, hi: int): (r: set<int>)
    ensures forall v :: v in r <==> lo <= v <= hi
    decreases hi - lo
  {
    if lo > hi then {} else MaskRange(lo, hi - 1) + {hi}
  }

  function Domain(k: Kind): set<int> {
    MaskRange(Least(k), Top(k))
  }

  function Lower(c: char): char {
    if 'A' <= c <= 'Z' then c - 'A' + 'a' else c
  }

  function LowerAll(s: string): string {
    seq(|s|, i requires 0 <= i < |s| => Lower(s[i]))
  }

  const MONTHS := ["jan", "feb", "mar", "apr", "may", "jun", "jul", "aug", "sep", "oct", "nov", "dec"]
  const DAYS := ["sun", "mon", "tue", "wed", "thu", "fri", "sat"]

  /** Place of a name in a table, or -1. */
  function Place(names: seq<string>, s: string): (i: int)
    ensures -1 <= i < |names| && (i >= 0 ==> names[i] == s)
  {
    if names == [] then -1
    else if names[|names| - 1] == s then |names| - 1
    else Place(names[..|names| - 1], s)
  }

  /** The stored value of a number or name, if it has one in this field. */
  function ValueOf(k: Kind, t: Token): (v: Option<int>)
    ensures v.Some? ==> Least(k) <= v.value <= Top(k)
  {
    match t
    case Number(n) => if Least(k) <= n <= Most(k) then Some(Normalised(k, n)) else None
    case Name(s) =>
      var i := if k == Month then Place(MONTHS, LowerAll(s))
               else if k == DayOfWeek then Place(DAYS, LowerAll(s)) else -1;
      if i < 0 then None else Some(i + Least(k))
    case _ => None
  }

  /** The names, in whatever case they are written. */
  lemma MonthName(s: string, i: nat)
    requires i < 12
    requires LowerAll(s) == ["jan", "feb", "mar", "apr", "may", "jun", "jul", "aug", "sep", "oct", "nov", "dec"][i]
    ensures ValueOf(Month, Name(s)) == Some(i + 1)
  {
    PlaceFound(MONTHS, i);
  }

  lemma DayName(s: string, i: nat)
    requires i < 7 && LowerAll(s) == ["sun", "mon", "tue", "wed", "thu", "fri", "sat"][i]
    ensures ValueOf(DayOfWeek, Name(s)) == Some(i)
  {
    PlaceFound(DAYS, i);
  }

  lemma {:induction false} PlaceFound(names: seq<string>, i: nat)
    requires i < |names| && forall a, b :: 0 <= a < b < |names| ==> names[a] != names[b]
    ensures Place(names, names[i]) == i
  {
    if i < |names| - 1 { PlaceFound(names[..|names| - 1], i); }
  }

  // ---- the meaning of a field: the union of its comma-separated terms ------------------------------

  /** Values start, start + step, ... up to end, before normalisation. */
  datatype Span = Span(start: int, end: int, step: int)

  function SpanSet(k: Kind, s: Span): set<int>
    requires s.step > 0
  {
    set r | r in MaskRange(s.start, s.end) && OnGrid(s, r) :: Normalised(k, r)
  }

  predicate OnGrid(s: Span, r: int)
    requires s.step > 0
  {
    (r - s.start) % s.step == 0
  }

  /** A star, a value, or a range of values. */
  function Core(k: Kind, p: seq<Token>): Option<Span> {
    if p == [Star] then Some(Span(Least(k), Top(k), 1))
    else if |p| == 1 && ValueOf(k, p[0]).Some? then Some(Span(ValueOf(k, p[0]).value, ValueOf(k, p[0]).value, 1))
    else if |p| == 3 && p[1] == Dash && ValueOf(k, p[0]).Some? && ValueOf(k, p[2]).Some? then
      Some(Span(ValueOf(k, p[0]).value, ValueOf(k, p[2]).value, 1))
    else None
  }

  /** A core, or a core with a step; a single value with a step runs on to the end. */
  function Term(k: Kind, p: seq<Token>): (r: Option<Span>)
    ensures r.Some? ==> Least(k) <= r.value.start <= r.value.end <= Most(k) && r.value.step > 0
  {
    var n := |p|;
    var stepped := n >= 2 && p[n - 2] == Slash;
    var core := Core(k, if stepped then p[..n - 2] else p);
    if core.None? || core.value.start > core.value.end then None
    else if !stepped then core
    else if !p[n - 1].Number? || p[n - 1].n <= 0 then None
    else
      var s := core.value.(step := p[n - 1].n);
      Some(if s.start == s.end then s.(end := Most(k)) else s)
  }

  function FirstComma(ts: seq<Token>): (i: nat)
    ensures i <= |ts| && (i < |ts| ==> ts[i] == Comma)
    ensures forall j :: 0 <= j < i ==> ts[j] != Comma
  {
    if ts == [] || ts[0] == Comma then 0 else 1 + FirstComma(ts[1..])
  }

  /** None when some term is malformed. One comma at the very end is tolerated. */
  function Meaning(k: Kind, ts: seq<Token>): Option<set<int>>
    decreases |ts|
  {
    var c := FirstComma(ts);
    var term := Term(k, ts[..c]);
    if term.None? then None
    else if c + 1 >= |ts| then Some(SpanSet(k, term.value))
    else
      var rest := Meaning(k, ts[c + 1..]);
      if rest.None? then None else Some(SpanSet(k, term.value) + rest.value)
  }

  // ---- the parser ------------------------------------------------------------------------------------

  /** The largest C int. */
  const INT_MAX := 0x7FFF_FFFF

  class FieldParser {
    const kind: Kind
    const tokens: seq<Token>
    var at: nat

    constructor (kind: Kind, tokens: seq<Token>)
      ensures this.kind == kind && this.tokens == tokens && at == 0
    {
      this.kind, this.tokens, at := kind, tokens, 0;
    }

    ghost predicate Valid()
      reads this
    {
      at <= |tokens|
    }

    /** The tokens from the current one on. */
    ghost function Rest(): seq<Token>
      reads this
      requires Valid()
    {
      tokens[at..]
    }

    function Current(): Option<Token>
      reads this
    {
      if at < |tokens| then Some(tokens[at]) else None
    }

    /** Reads the next token; fails on a lexical error. */
    method Advance() returns (ok: bool)
      requires Valid() && at < |tokens|
      modifies this
      ensures Valid() && at == old(at) + 1 && (ok <==> Current() != Some(Illegal))
    {
      at := at + 1;
      ok := Current() != Some(Illegal);
    }

    /** A number or name of this field. `lexed` tells whether what follows could be read. */
    method ParseValue() returns (value: Option<int>, lexed: bool)
      requires Valid()
      modifies this
      ensures Valid()
      ensures value == if old(at) < |tokens| then ValueOf(kind, tokens[old(at)]) else None
      ensures at == old(at) + if value.Some? then 1 else 0
      ensures value.Some? ==> (lexed <==> Current() != Some(Illegal))
    {
      if at == |tokens| { return None, true; }
      value := ValueOf(kind, tokens[at]);
      lexed := true;
      if value.Some? { lexed := Advance(); }
    }

    /** Adds the values of a span, one by one. `past` is the largest number the loop computes;
        it fits a C int exactly when the first step from the start does. */
    method ApplyRange(bits: set<int>, s: Span) returns (r: set<int>, ghost past: int)
      requires s.step > 0 && Least(kind) <= s.start && s.end <= Most(kind)
      ensures r == bits + SpanSet(kind, s)
      ensures s.start <= s.end ==> past - s.step <= s.end < past && OnGrid(s, past)
      ensures s.start <= s.end ==> (past <= INT_MAX <==> s.start + s.step <= INT_MAX)
    {
      hide SpanSet, OnGrid;
      r := bits;
      var raw := s.start;
      StartOfSpan(kind, s);
      while raw <= s.end
        invariant s.start <= raw && OnGrid(s, raw) && (raw == s.start || raw - s.step <= s.end)
        invariant raw == s.start || raw == s.start + s.step || s.start + s.step < raw <= s.end + s.end
        invariant r == bits + SpanSet(kind, s.(end := raw - 1))
        decreases s.end + s.step - raw
      {
        NextInSpan(kind, s, raw);
        r := r + {Normalised(kind, raw)};
        raw := raw + s.step;
      }
      LastInSpan(kind, s, raw);
      past := raw;
    }

    /** One term: reads tokens as far as they continue it. */
    method ParseTerm(bits: set<int>) returns (ok: bool, r: set<int>)
      requires Valid() && at < |tokens|
      modifies this
      ensures Valid()
      ensures ok <==> Greedy(kind, old(Rest())).Some?
      ensures ok ==>
        var g := Greedy(kind, old(Rest())).value;
        at == old(at) + g.used && r == bits + SpanSet(kind, g.span)
    {
      hide Core, ValueOf, SpanSet;
      ghost var p := Rest();
      r := bits;
      var start, end, lexed;
      ok, start, end := ParseCore();
      if !ok { return; }
      assert forall i :: 0 <= i < |p| ==> p[i] == tokens[old(at) + i];
      ok := false;
      var step := 1;
      if Current() == Some(Slash) {
        lexed := Advance();
        if !lexed || at == |tokens| || !tokens[at].Number? || tokens[at].n <= 0 { return; }
        step := tokens[at].n;
        lexed := Advance();
        if !lexed { return; }
        if start <= end { CoreInField(kind, p[..CoreLength(p)]); }
        if start == end { end := Most(kind); }
      }
      if start > end { return; }
      CoreInField(kind, p[..CoreLength(p)]);
      ghost var past;
      r, past := ApplyRange(bits, Span(start, end, step));
      ok := true;
    }

    /** The core of a term, before any step. */
    method ParseCore() returns (ok: bool, start: int, end: int)
      requires Valid() && at < |tokens|
      modifies this
      ensures Valid()
      ensures !ok ==> Greedy(kind, old(Rest())).None?
      ensures ok ==>
        var p := old(Rest()); var n := CoreLength(p);
        && n <= |p| && at == old(at) + n && Current() != Some(Illegal)
        && Core(kind, p[..n]) == Some(Span(start, end, 1))
    {
      ghost var p := Rest();
      assert forall i :: 0 <= i < |p| ==> p[i] == tokens[old(at) + i];
      start, end := Least(kind), Top(kind);
      var lexed, v;
      if tokens[at] == Star {
        ok := Advance();
        return;
      }
      v, lexed := ParseValue();
      if v.None? || !lexed { return false, 0, 0; }
      start, end := v.value, v.value;
      if Current() == Some(Dash) {
        lexed := Advance();
        if !lexed { return false, 0, 0; }
        v, lexed := ParseValue();
        if v.None? || !lexed { return false, 0, 0; }
        end := v.value;
      }
      ok := true;
    }

    /** The whole field. */
    method ParseField() returns (r: Option<Field>)
      requires at == 0
      modifies this
      ensures r.Some? <==> Meaning(kind, tokens).Some?
      ensures r.Some? ==> r.value.bits == Meaning(kind, tokens).value
      ensures r.Some? ==> (r.value.full <==> r.value.bits == Domain(kind))
    {
      hide Meaning, Greedy, SpanSet, Domain, Joined;
      assert Rest() == tokens;
      if tokens == [] || tokens[0] == Illegal {
        BadTerm(kind, tokens);
        return None;
      }
      var bits: set<int> := {};
      JoinNothing(Meaning(kind, tokens));
      while at < |tokens|
        invariant Valid() && Current() != Some(Illegal)
        invariant at < |tokens| ==> Joined(bits, Meaning(kind, Rest())) == Meaning(kind, tokens)
        invariant at == |tokens| ==> Meaning(kind, tokens) == Some(bits)
        decreases |tokens| - at
      {
        ghost var p, before := Rest(), bits;
        MeaningStep(kind, p);
        JoinTwice(before, {}, None);
        var ok;
        ok, bits := ParseTerm(bits);
        if !ok { return None; }
        ghost var g := Greedy(kind, p).value;
        JoinTwice(before, SpanSet(kind, g.span), Meaning(kind, p[g.used..]));
        if Current() == Some(Comma) {
          assert p[g.used] == Comma;
          var lexed := Advance();
          assert p[g.used + 1..] == Rest();
          JoinTwice(before, SpanSet(kind, g.span), Meaning(kind, Rest()));
          if !lexed {
            BadTerm(kind, Rest());
            return None;
          }
        } else if at < |tokens| {
          assert p[g.used] == tokens[at];
          return None;
        }
      }
      return Some(Field(bits, bits == Domain(kind)));
    }
  }

  /** A field means its first term and, after a comma, the rest. */
  lemma MeaningStep(k: Kind, p: seq<Token>)
    requires p != [] && p[0] != Illegal
    ensures var g := Greedy(k, p);
      if g.None? || (g.value.used < |p| && p[g.value.used] != Comma) then Meaning(k, p).None?
      else if g.value.used + 1 >= |p| then Meaning(k, p) == Some(SpanSet(k, g.value.span))
      else Meaning(k, p) == Joined(SpanSet(k, g.value.span), Meaning(k, p[g.value.used + 1..]))
  {
    hide Greedy, Term, SpanSet;
    GreedyIsTerm(k, p);
    GreedyFits(k, p);
  }

  lemma GreedyFits(k: Kind, p: seq<Token>)
    ensures Greedy(k, p).Some? ==> Greedy(k, p).value.used <= |p|
  {
  }

  lemma JoinNothing(rest: Option<set<int>>)
    ensures Joined({}, rest) == rest
  {
    if rest.Some? { assert {} + rest.value == rest.value; }
  }

  lemma JoinTwice(a: set<int>, b: set<int>, rest: Option<set<int>>)
    ensures Joined(a, Joined(b, rest)) == Joined(a + b, rest)
    ensures Joined(a, Some(b)) == Some(a + b) && Joined(a, None) == None && Joined(a + b, None) == None
  {
    if rest.Some? { assert a + (b + rest.value) == a + b + rest.value; }
  }

  datatype Field = Field(bits: set<int>, full: bool)

  function Joined(bits: set<int>, rest: Option<set<int>>): Option<set<int>> {
    if rest.None? then None else Some(bits + rest.value)
  }

  /** Tokens of the core that starts here. */
  function CoreLength(p: seq<Token>): nat {
    if |p| > 1 && p[0] != Star && p[1] == Dash then 3 else 1
  }

  lemma CoreInField(k: Kind, q: seq<Token>)
    requires Core(k, q).Some?
    ensures Least(k) <= Core(k, q).value.start && Core(k, q).value.end <= Most(k)
  {
  }

  /** A term read from left to right, and how many tokens it takes. */
  datatype Reading = Reading(span: Span, used: nat)

  function Greedy(k: Kind, p: seq<Token>): (r: Option<Reading>)
    ensures r.Some? ==> r.value.span.step > 0 && r.value.used <= |p|
  {
    var n := CoreLength(p);
    if |p| < n then None
    else
      var core := Core(k, p[..n]);
      var stepped := n < |p| && p[n] == Slash;
      var used := if stepped then n + 2 else n;
      if core.None? || core.value.start > core.value.end || used > |p| then None
      else if used < |p| && p[used] == Illegal then None
      else if !stepped then Some(Reading(core.value, n))
      else if !p[n + 1].Number? || p[n + 1].n <= 0 then None
      else
        var s := core.value.(step := p[n + 1].n);
        Some(Reading(if s.start == s.end then s.(end := Most(k)) else s, used))
  }

  lemma GridStep(m: int, d: int, j: int)
    requires m > 0 && d % m == 0 && 0 <= j < m
    ensures (d + j) % m == j && (d + m) % m == 0
  {
    var q := d / m;
    assert d == m * q;
    Divides(m, q, j);
    assert m * (q + 1) == m * q + m;
    Divides(m, q + 1, 0);
  }

  lemma Divides(m: int, q: int, j: int)
    requires m > 0 && 0 <= j < m
    ensures (m * q + j) % m == j
  {
    var x := m * q + j;
    var e, t := x / m, x % m;
    assert x == m * e + t;
    Multiple(m, q - e);
    assert m * (q - e) == m * q - m * e;
  }

  lemma Multiple(m: int, a: int)
    requires m > 0
    ensures a >= 1 ==> m * a >= m
    ensures a <= -1 ==> m * a <= -m
  {
  }

  lemma StartOfSpan(k: Kind, s: Span)
    requires s.step > 0
    ensures OnGrid(s, s.start) && SpanSet(k, s.(end := s.start - 1)) == {}
  {
    var none := s.(end := s.start - 1);
    assert forall r :: r !in MaskRange(none.start, none.end);
  }

  lemma NextInSpan(k: Kind, s: Span, raw: int)
    requires s.step > 0 && s.start <= raw && OnGrid(s, raw)
    ensures SpanSet(k, s.(end := raw + s.step - 1)) == SpanSet(k, s.(end := raw - 1)) + {Normalised(k, raw)}
    ensures OnGrid(s, raw + s.step)
  {
    hide Normalised;
    GridStep(s.step, raw - s.start, 0);
    var short, long := s.(end := raw - 1), s.(end := raw + s.step - 1);
    forall r: int | raw < r < raw + s.step ensures !OnGrid(s, r) { GridStep(s.step, raw - s.start, r - raw); }
    forall v ensures v in SpanSet(k, long) <==> v in SpanSet(k, short) + {Normalised(k, raw)} {
      if v in SpanSet(k, long) {
        var r :| r in MaskRange(long.start, long.end) && OnGrid(long, r) && v == Normalised(k, r);
        assert OnGrid(s, r);
        if r != raw { assert r in MaskRange(short.start, short.end) && OnGrid(short, r); }
      }
      if v in SpanSet(k, short) {
        var r :| r in MaskRange(short.start, short.end) && OnGrid(short, r) && v == Normalised(k, r);
        assert r in MaskRange(long.start, long.end) && OnGrid(long, r);
      }
      if v == Normalised(k, raw) { assert raw in MaskRange(long.start, long.end) && OnGrid(long, raw); }
    }
  }

  lemma LastInSpan(k: Kind, s: Span, raw: int)
    requires s.step > 0 && s.start <= raw && raw > s.end && OnGrid(s, raw)
    requires raw == s.start || raw - s.step <= s.end
    ensures SpanSet(k, s.(end := raw - 1)) == SpanSet(k, s)
  {
    hide Normalised;
    var long := s.(end := raw - 1);
    forall r: int | raw - s.step < r < raw ensures !OnGrid(s, r) {
      if OnGrid(s, r) { GridStep(s.step, r - s.start, raw - r); }
    }
    forall v ensures v in SpanSet(k, long) <==> v in SpanSet(k, s) {
      if v in SpanSet(k, long) {
        var r :| r in MaskRange(long.start, long.end) && OnGrid(long, r) && v == Normalised(k, r);
        assert OnGrid(s, r) && r in MaskRange(s.start, s.end);
      }
      if v in SpanSet(k, s) {
        var r :| r in MaskRange(s.start, s.end) && OnGrid(s, r) && v == Normalised(k, r);
        assert r in MaskRange(long.start, long.end) && OnGrid(long, r);
      }
    }
  }

  /** What starts with nothing, or with an unreadable token, has no meaning. */
  lemma BadTerm(k: Kind, ts: seq<Token>)
    requires ts == [] || ts[0] == Illegal
    ensures Meaning(k, ts).None?
  {
  }

  /** A well-formed term has one of six shapes. */
  lemma TermShapes(k: Kind, q: seq<Token>)
    requires Term(k, q).Some?
    ensures q != [] && (q[0] == Star || ValueOf(k, q[0]).Some?)
    ensures |q| == 1 || (|q| == 3 && (q[1] == Slash || (q[1] == Dash && q[0] != Star))) ||
            (|q| == 5 && q[0] != Star && q[1] == Dash && q[3] == Slash)
  {
  }

  /** Reading from left to right up to the comma finds the term, or shows that there is none. */
  lemma GreedyIsTerm(k: Kind, p: seq<Token>)
    requires p != [] && p[0] != Illegal
    ensures var c, g := FirstComma(p), Greedy(k, p);
      if g.Some? && g.value.used == c then Term(k, p[..c]) == Some(g.value.span) else Term(k, p[..c]).None?
    ensures Greedy(k, p).Some? ==> Greedy(k, p).value.used <= FirstComma(p)
  {
    var c, g := FirstComma(p), Greedy(k, p);
    var q := p[..c];
    if g.Some? { GreedySound(k, p, c); }
    if Term(k, q).Some? {
      TermShapes(k, q);
      TermIsGreedy(k, p, c);
    }
  }

  /** What reads as a term without a comma in it is that term. */
  lemma GreedySound(k: Kind, p: seq<Token>, c: nat)
    requires Greedy(k, p).Some? && c == FirstComma(p)
    ensures Greedy(k, p).value.used <= c
    ensures Greedy(k, p).value.used == c ==> Term(k, p[..c]) == Some(Greedy(k, p).value.span)
  {
    hide Core;
    var n := CoreLength(p);
    CoreTokens(k, p[..n]);
    assert forall i :: 0 <= i < n ==> p[i] == p[..n][i];
    if Greedy(k, p).value.used == c {
      var q := p[..c];
      assert q[..n] == p[..n];
    }
  }

  lemma CoreTokens(k: Kind, q: seq<Token>)
    requires Core(k, q).Some?
    ensures Comma !in q && Slash !in q && (|q| == 1 || |q| == 3)
  {
    assert ValueOf(k, Comma).None? && ValueOf(k, Slash).None?;
    hide ValueOf;
  }

  lemma TermIsGreedy(k: Kind, p: seq<Token>, c: nat)
    requires c == FirstComma(p) && Term(k, p[..c]).Some?
    ensures Greedy(k, p).Some? && Greedy(k, p).value.used == c
  {
    hide ValueOf;
    TermShapes(k, p[..c]);
  }

  // ---- what the fields of an expression can be -------------------------------------------------------

  /** A span of a term is not empty and stays inside the field; 7 is never stored. */
  lemma SpanInDomain(k: Kind, s: Span)
    requires s.step > 0 && Least(k) <= s.start <= s.end <= Most(k)
    ensures SpanSet(k, s) != {} && SpanSet(k, s) <= Domain(k)
  {
    assert s.start in MaskRange(s.start, s.end) && OnGrid(s, s.start);
    assert Normalised(k, s.start) in SpanSet(k, s);
    forall v | v in SpanSet(k, s) ensures v in Domain(k) {
      var r :| r in MaskRange(s.start, s.end) && OnGrid(s, r) && v == Normalised(k, r);
    }
  }

  lemma {:induction false} MeaningInDomain(k: Kind, ts: seq<Token>)
    requires Meaning(k, ts).Some?
    ensures Meaning(k, ts).value != {} && Meaning(k, ts).value <= Domain(k)
    decreases |ts|
  {
    hide Term, SpanSet, Domain;
    var c := FirstComma(ts);
    SpanInDomain(k, Term(k, ts[..c]).value);
    if c + 1 < |ts| { MeaningInDomain(k, ts[c + 1..]); }
  }

  /** A comma list of values. */
  function Written(vs: seq<int>): seq<Token>
    requires vs != []
  {
    if |vs| == 1 then [Number(vs[0])] else [Number(vs[0]), Comma] + Written(vs[1..])
  }

  lemma OneValue(k: Kind, v: int)
    requires v in Domain(k)
    ensures Term(k, [Number(v)]) == Some(Span(v, v, 1)) && SpanSet(k, Span(v, v, 1)) == {v}
  {
    ValueTerm(k, v);
    hide Term, SpanSet;
    JustOne(k, v, 1);
  }

  lemma ValueTerm(k: Kind, v: int)
    requires v in Domain(k)
    ensures Term(k, [Number(v)]) == Some(Span(v, v, 1)) && Normalised(k, v) == v
  {
  }

  /** Values written as a comma list are read back, in whatever order and however often. */
  lemma {:induction false} ListRoundTrip(k: Kind, vs: seq<int>)
    requires vs != [] && forall i :: 0 <= i < |vs| ==> vs[i] in Domain(k)
    ensures Meaning(k, Written(vs)) == Some(set i | 0 <= i < |vs| :: vs[i])
    decreases |vs|
  {
    hide Term, SpanSet, Domain;
    var ts := Written(vs);
    OneValue(k, vs[0]);
    if |vs| == 1 {
      assert FirstComma(ts) == 1 && ts[..1] == [Number(vs[0])];
      assert (set i | 0 <= i < |vs| :: vs[i]) == {vs[0]};
    } else {
      ListRoundTrip(k, vs[1..]);
      assert ts[1..] == [Comma] + Written(vs[1..]);
      assert FirstComma(ts) == 1 && ts[..1] == [Number(vs[0])] && ts[2..] == Written(vs[1..]);
      WrittenNonempty(vs[1..]);
      FirstAndRest(vs);
    }
  }

  lemma WrittenNonempty(vs: seq<int>)
    requires vs != []
    ensures |Written(vs)| > 0
  {
  }

  lemma FirstAndRest(vs: seq<int>)
    requires vs != []
    ensures (set i | 0 <= i < |vs| :: vs[i]) == {vs[0]} + (set i | 0 <= i < |vs[1..]| :: vs[1..][i])
  {
    var all, rest := set i | 0 <= i < |vs| :: vs[i], set i | 0 <= i < |vs[1..]| :: vs[1..][i];
    forall x | x in all ensures x in {vs[0]} + rest {
      var i :| 0 <= i < |vs| && vs[i] == x;
      if i > 0 { assert vs[1..][i - 1] == x; }
    }
    assert vs[0] in all;
  }

  /** The members of s between lo and hi, in order. */
  function Listing(s: set<int>, lo: int, hi: int): (vs: seq<int>)
    ensures forall i :: 0 <= i < |vs| ==> vs[i] in s && lo <= vs[i] <= hi
    ensures forall x :: x in s && lo <= x <= hi ==> x in vs
    decreases hi - lo
  {
    if lo > hi then [] else Listing(s, lo, hi - 1) + if hi in s then [hi] else []
  }

  /** Every nonempty set of values of a field can be written, and parses back to itself. */
  lemma EverySetCanBeWritten(k: Kind, s: set<int>)
    requires s != {} && s <= Domain(k)
    ensures exists ts :: Meaning(k, ts) == Some(s)
  {
    hide Meaning;
    var vs := Listing(s, Least(k), Top(k));
    assert (set i | 0 <= i < |vs| :: vs[i]) == s;
    assert vs != [];
    ListRoundTrip(k, vs);
    assert Meaning(k, Written(vs)) == Some(s);
  }

  /** A comma after the last term changes nothing. */
  lemma {:induction false} TrailingComma(k: Kind, ts: seq<Token>)
    requires ts != [] && ts[|ts| - 1] != Comma
    ensures Meaning(k, ts + [Comma]) == Meaning(k, ts)
    decreases |ts|
  {
    hide Term, SpanSet, FirstComma;
    var c, more := FirstComma(ts), ts + [Comma];
    CommaFound(more, c);
    assert more[..c] == ts[..c];
    if c < |ts| {
      assert more[c + 1..] == ts[c + 1..] + [Comma];
      TrailingComma(k, ts[c + 1..]);
    }
  }

  lemma {:induction false} CommaFound(ts: seq<Token>, c: nat)
    requires c < |ts| && ts[c] == Comma && forall j :: 0 <= j < c ==> ts[j] != Comma
    ensures FirstComma(ts) == c
  {
    if c > 0 { CommaFound(ts[1..], c - 1); }
  }

  /** The first and the last value of each field. */
  ghost predicate Bounds(k: Kind, lo: int, hi: int) {
    match k
    case Minute => lo == 0 && hi == 59
    case Hour => lo == 0 && hi == 23
    case DayOfMonth => lo == 1 && hi == 31
    case Month => lo == 1 && hi == 12
    case DayOfWeek => lo == 0 && hi == 6
  }

  /** A star is every value of the field, and a star with a step every n-th from the first. */
  lemma StarMeans(k: Kind, lo: int, hi: int, n: int)
    requires Bounds(k, lo, hi) && n > 0
    ensures Meaning(k, [Star]).Some? && forall v :: v in Meaning(k, [Star]).value <==> lo <= v <= hi
    ensures var m := Meaning(k, [Star, Slash, Number(n)]);
      m.Some? && forall v :: v in m.value <==> lo <= v <= hi && (v - lo) % n == 0
  {
    hide SpanSet, Meaning;
    OneTerm(k, [Star]);
    OneTerm(k, [Star, Slash, Number(n)]);
    assert [Star, Slash, Number(n)][..1] == [Star];
    StarSpan(k, lo, hi, 1);
    StarSpan(k, lo, hi, n);
  }

  lemma BoundsKept(k: Kind, lo: int, hi: int)
    requires Bounds(k, lo, hi)
    ensures forall v :: lo <= v <= hi ==> Normalised(k, v) == v
  {
  }

  lemma StarSpan(k: Kind, lo: int, hi: int, n: int)
    requires Bounds(k, lo, hi) && n > 0
    ensures forall v :: v in SpanSet(k, Span(lo, hi, n)) <==> lo <= v <= hi && (v - lo) % n == 0
  {
    hide Bounds;
    var s := Span(lo, hi, n);
    BoundsKept(k, lo, hi);
    forall v | lo <= v <= hi && (v - lo) % n == 0 ensures v in SpanSet(k, s) {
      assert v in MaskRange(lo, hi) && OnGrid(s, v) && Normalised(k, v) == v;
    }
  }

  // ---- ranges against what they say ------------------------------------------------------------------

  /** The tokens of a-b, and of a-b/n. */
  function RangeText(a: int, b: int): seq<Token> {
    [Number(a), Dash, Number(b)]
  }

  function SteppedText(a: int, b: int, n: int): seq<Token> {
    [Number(a), Dash, Number(b), Slash, Number(n)]
  }

  /** What a range says: every n-th value from a to b, 7 standing for Sunday. */
  function Intended(k: Kind, a: int, b: int, n: int): set<int>
    requires n > 0
  {
    SpanSet(k, Span(a, b, n))
  }

  lemma {:induction false} NoComma(ts: seq<Token>)
    requires forall i :: 0 <= i < |ts| ==> ts[i] != Comma
    ensures FirstComma(ts) == |ts|
    decreases |ts|
  {
    if ts != [] { NoComma(ts[1..]); }
  }

  lemma OneTerm(k: Kind, ts: seq<Token>)
    requires forall i :: 0 <= i < |ts| ==> ts[i] != Comma
    ensures Meaning(k, ts) == if Term(k, ts).None? then None else Some(SpanSet(k, Term(k, ts).value))
  {
    NoComma(ts);
    assert ts[..|ts|] == ts;
  }

  /** A range without a step means what it says, except one from a weekday before 7 up to 7.
      Endpoints are normalised first: 0-7 is accepted as Sunday alone, 1-7 to 6-7 are refused. */
  lemma RangeMeans(k: Kind, a: int, b: int)
    requires Least(k) <= a <= b <= Most(k)
    ensures Meaning(k, RangeText(a, b)) == Some(Intended(k, a, b, 1)) <==> k != DayOfWeek || b < 7 || a == 7
    ensures k == DayOfWeek && a == 0 && b == 7 ==> Meaning(k, RangeText(a, b)) == Some({0})
    ensures k == DayOfWeek && 0 < a < b == 7 ==> Meaning(k, RangeText(a, b)) == None
  {
    OneTerm(k, RangeText(a, b));
    RangeTerm(k, a, b);
    hide Meaning, Term, SpanSet;
    if Normalised(k, a) == Normalised(k, b) && b == 7 { SundayAlone(a); }
  }

  lemma RangeTerm(k: Kind, a: int, b: int)
    requires Least(k) <= a <= Most(k) && Least(k) <= b <= Most(k)
    ensures var s, e := Normalised(k, a), Normalised(k, b);
      Term(k, RangeText(a, b)) == if s > e then None else Some(Span(s, e, 1))
  {
  }

  /** From a to 7 by single steps, against Sunday alone. */
  lemma SundayAlone(a: int)
    requires a == 0 || a == 7
    ensures SpanSet(DayOfWeek, Span(0, 0, 1)) == {0}
    ensures SpanSet(DayOfWeek, Span(a, 7, 1)) == {0} <==> a == 7
  {
    OneValue(DayOfWeek, 0);
    var s := Span(a, 7, 1);
    assert 7 in MaskRange(a, 7) && OnGrid(s, 7) && Normalised(DayOfWeek, 7) in SpanSet(DayOfWeek, s);
    if a == 0 { assert 1 in MaskRange(a, 7) && OnGrid(s, 1) && Normalised(DayOfWeek, 1) in SpanSet(DayOfWeek, s); }
    else { assert forall r :: r in MaskRange(7, 7) ==> r == 7; }
  }

  /** A range of one value with a step runs on to the end of the field. It still means just
      that value when the first step leaves the field, or leads from Sunday to Sunday. */
  predicate StepsOut(k: Kind, a: int, n: int) {
    Normalised(k, a) + n > Most(k) || (k == DayOfWeek && Normalised(k, a) == 0 && n == 7)
  }

  /** A stepped range means what it says, except from a weekday after Sunday up to 7, which is
      refused, and from a value to itself, unless the step leads out. */
  lemma SteppedRangeMeans(k: Kind, a: int, b: int, n: int)
    requires Least(k) <= a <= b <= Most(k) && n > 0
    ensures Meaning(k, SteppedText(a, b, n)) == Some(Intended(k, a, b, n)) <==>
      if a == b then StepsOut(k, a, n) else k != DayOfWeek || b < 7 || a == 0
  {
    hide Meaning, Term, SpanSet, StepsOut, SteppedText;
    PlainStepped(a, b, n);
    OneTerm(k, SteppedText(a, b, n));
    SteppedTerm(k, a, b, n);
    if a == b { RunsOn(k, a, n); }
  }

  lemma PlainStepped(a: int, b: int, n: int)
    ensures forall i :: 0 <= i < |SteppedText(a, b, n)| ==> SteppedText(a, b, n)[i] != Comma
  {
  }

  lemma SteppedTerm(k: Kind, a: int, b: int, n: int)
    requires Least(k) <= a <= Most(k) && Least(k) <= b <= Most(k) && n > 0
    ensures var s, e := Normalised(k, a), Normalised(k, b);
      Term(k, SteppedText(a, b, n)) == if s > e then None else Some(Span(s, if s == e then Most(k) else e, n))
  {
    assert SteppedText(a, b, n)[..3] == RangeText(a, b);
  }

  /** From one value on in steps, against the value alone. */
  lemma RunsOn(k: Kind, a: int, n: int)
    requires Least(k) <= a <= Most(k) && n > 0
    ensures SpanSet(k, Span(Normalised(k, a), Most(k), n)) == SpanSet(k, Span(a, a, n)) <==> StepsOut(k, a, n)
  {
    var s := Normalised(k, a);
    JustOne(k, a, n);
    FirstSteps(k, s, n);
    if StepsOut(k, a, n) { OnlyStart(k, s, n); }
    hide SpanSet;
  }

  lemma JustOne(k: Kind, a: int, n: int)
    requires n > 0
    ensures SpanSet(k, Span(a, a, n)) == {Normalised(k, a)}
  {
    hide Normalised;
    var one := Span(a, a, n);
    assert forall r :: r in MaskRange(a, a) ==> r == a;
    assert a in MaskRange(a, a) && OnGrid(one, a);
  }

  lemma FirstSteps(k: Kind, s: int, n: int)
    requires s <= Most(k) && n > 0
    ensures Normalised(k, s) in SpanSet(k, Span(s, Most(k), n))
    ensures s + n <= Most(k) ==> Normalised(k, s + n) in SpanSet(k, Span(s, Most(k), n))
  {
    hide Normalised;
    var on := Span(s, Most(k), n);
    GridStep(n, 0, 0);
    assert s in MaskRange(s, Most(k)) && OnGrid(on, s);
    if s + n <= Most(k) { assert s + n in MaskRange(s, Most(k)) && OnGrid(on, s + n); }
  }

  lemma OnlyStart(k: Kind, s: int, n: int)
    requires Least(k) <= s <= Top(k) && n > 0 && (s + n > Most(k) || (k == DayOfWeek && s == 0 && n == 7))
    ensures SpanSet(k, Span(s, Most(k), n)) <= {s}
  {
    var on := Span(s, Most(k), n);
    forall v | v in SpanSet(k, on) ensures v == s {
      var r :| r in MaskRange(s, Most(k)) && OnGrid(on, r) && v == Normalised(k, r);
      if r != s && r < s + n { GridStep(n, 0, r - s); }
    }
  }

  /** With a step, a single 7 is the start of the week. */
  lemma SevenWithStep()
    ensures Meaning(DayOfWeek, [Number(7), Slash, Number(1)]) == Some(Domain(DayOfWeek))
  {
    var us := [Number(7), Slash, Number(1)];
    assert FirstComma(us) == 3 by { NoComma(us); }
    assert us[..3] == us && us[..1] == [Number(7)];
    assert Term(DayOfWeek, us) == Some(Span(0, 7, 1));
    WholeWeek();
  }

  lemma WholeWeek()
    ensures SpanSet(DayOfWeek, Span(0, 7, 1)) == Domain(DayOfWeek)
  {
    var s := Span(0, 7, 1);
    forall v ensures v in SpanSet(DayOfWeek, s) <==> v in Domain(DayOfWeek) {
      if v in Domain(DayOfWeek) { assert v in MaskRange(0, 7) && OnGrid(s, v) && Normalised(DayOfWeek, v) == v; }
    }
  }

  // ---- whole expressions --------------------------------------------------------------------------------

  /** What five fields mean together. */
  predicate Means(fields: seq<seq<Token>>, e: Expr) {
    && |fields| == 5
    && Meaning(Minute, fields[0]) == Some(e.minutes) && Meaning(Hour, fields[1]) == Some(e.hours)
    && Meaning(DayOfMonth, fields[2]) == Some(e.doms) && Meaning(Month, fields[3]) == Some(e.months)
    && Meaning(DayOfWeek, fields[4]) == Some(e.dows)
    && (e.domAny <==> e.doms == Domain(DayOfMonth)) && (e.dowAny <==> e.dows == Domain(DayOfWeek))
  }

  predicate Meaningful(fields: seq<seq<Token>>) {
    && |fields| == 5
    && Meaning(Minute, fields[0]).Some? && Meaning(Hour, fields[1]).Some? && Meaning(DayOfMonth, fields[2]).Some?
    && Meaning(Month, fields[3]).Some? && Meaning(DayOfWeek, fields[4]).Some?
  }

  method ParseOne(k: Kind, ts: seq<Token>) returns (r: Option<Field>)
    ensures r.Some? <==> Meaning(k, ts).Some?
    ensures r.Some? ==> r.value.bits == Meaning(k, ts).value && (r.value.full <==> r.value.bits == Domain(k))
  {
    var parser := new FieldParser(k, ts);
    r := parser.ParseField();
  }

  /** Parses an expression that has been split into its fields. */
  method ParseExpr(fields: seq<seq<Token>>) returns (r: Option<Expr>)
    ensures r.Some? <==> Meaningful(fields)
    ensures r.Some? ==> Means(fields, r.value) && InDomain(r.value)
  {
    hide Meaning, Domain;
    if |fields| != 5 { return None; }
    var a := ParseOne(Minute, fields[0]);
    if a.None? { return None; }
    var b := ParseOne(Hour, fields[1]);
    if b.None? { return None; }
    var c := ParseOne(DayOfMonth, fields[2]);
    if c.None? { return None; }
    var d := ParseOne(Month, fields[3]);
    if d.None? { return None; }
    var f := ParseOne(DayOfWeek, fields[4]);
    if f.None? { return None; }
    var e := Expr(a.value.bits, b.value.bits, c.value.bits, d.value.bits, f.value.bits, c.value.full, f.value.full);
    MeansInDomain(fields, e);
    return Some(e);
  }

  lemma MeansInDomain(fields: seq<seq<Token>>, e: Expr)
    requires Means(fields, e)
    ensures InDomain(e)
    ensures e.minutes != {} && e.hours != {} && e.doms != {} && e.months != {} && e.dows != {} && 7 !in e.dows
  {
    hide Meaning;
    MeaningInDomain(Minute, fields[0]);
    MeaningInDomain(Hour, fields[1]);
    MeaningInDomain(DayOfMonth, fields[2]);
    MeaningInDomain(Month, fields[3]);
    MeaningInDomain(DayOfWeek, fields[4]);
  }
}
