/**
 The one-pass scanner that bounds the structure of a JSON document before it is parsed, and its
 agreement with the tree measures of every JSON text (RFC 8259, sections 2, 4, 5, 6 and 7).
 */
module JsonPreflight {
  import opened Common

  type Byte = b: int | 0 <= b < 256

  const MAX_DEPTH: nat := 64
  const MAX_CONTAINERS: nat := 100_000
  const MAX_SEPARATORS: nat := 500_000

  const QUOTE: Byte := 34
  const COMMA: Byte := 44
  const COLON: Byte := 58
  const OPEN_ARRAY: Byte := 91
  const BACKSLASH: Byte := 92
  const CLOSE_ARRAY: Byte := 93
  const OPEN_OBJECT: Byte := 123
  const CLOSE_OBJECT: Byte := 125

  // ----- the scanner

  datatype Scanner =
    | Scanning(inString: bool, escaped: bool, depth: nat, containers: nat, separators: nat)
    | Rejected

  function Next(s: Scanner, b: Byte): Scanner {
    if s.Rejected? then Rejected
    else if s.inString then
      if s.escaped then s.(escaped := false)
      else if b == BACKSLASH then s.(escaped := true)
      else if b == QUOTE then s.(inString := false)
      else s
    else if b == QUOTE then s.(inString := true)
    else if b == OPEN_ARRAY || b == OPEN_OBJECT then
      if s.depth + 1 > MAX_DEPTH || s.containers + 1 > MAX_CONTAINERS then Rejected
      else s.(depth := s.depth + 1, containers := s.containers + 1)
    else if b == CLOSE_ARRAY || b == CLOSE_OBJECT then
      if s.depth == 0 then Rejected else s.(depth := s.depth - 1)
    else if b == COMMA then
      if s.separators + 1 > MAX_SEPARATORS then Rejected else s.(separators := s.separators + 1)
    else s
  }

  function Scan(raw: seq<Byte>, s: Scanner): Scanner {
    if raw == [] then s else Scan(raw[1..], Next(s, raw[0]))
  }

  const START: Scanner := Scanning(false, false, 0, 0, 0)

  predicate Accepts(raw: seq<Byte>) {
    var s := Scan(raw, START);
    s.Scanning? && s.depth == 0 && !s.inString
  }

  lemma {:induction false} RejectedForever(raw: seq<Byte>)
    ensures Scan(raw, Rejected) == Rejected
  {
    if raw != [] {
      RejectedForever(raw[1..]);
    }
  }

  /** The loop over the bytes, with its early exits. */
  method Preflight(raw: seq<Byte>) returns (ok: bool)
    ensures ok == Accepts(raw)
  {
    var inString, escaped := false, false;
    var depth, containers, separators := 0, 0, 0;
    for i := 0 to |raw|
      invariant depth >= 0 && containers >= 0 && separators >= 0
      invariant Scan(raw[i..], Scanning(inString, escaped, depth, containers, separators)) == Scan(raw, START)
    {
      var b := raw[i];
      assert raw[i..][0] == b && raw[i..][1..] == raw[i + 1..];
      RejectedForever(raw[i + 1..]);
      if inString {
        if escaped {
          escaped := false;
        } else if b == BACKSLASH {
          escaped := true;
        } else if b == QUOTE {
          inString := false;
        }
        continue;
      }
      if b == QUOTE {
        inString := true;
      } else if b == OPEN_ARRAY || b == OPEN_OBJECT {
        depth := depth + 1;
        containers := containers + 1;
        if depth > MAX_DEPTH || containers > MAX_CONTAINERS {
          return false;
        }
      } else if b == CLOSE_ARRAY || b == CLOSE_OBJECT {
        depth := depth - 1;
        if depth < 0 {
          return false;
        }
      } else if b == COMMA {
        separators := separators + 1;
        if separators > MAX_SEPARATORS {
          return false;
        }
      }
    }
    return depth == 0 && !inString;
  }

  // ----- JSON values and their measures

  /** The tree of a JSON value; what the scalars are does not matter here. */
  datatype Json = Atom | Array(items: Items) | Object(items: Items)
  datatype Items = Nil | Cons(head: Json, tail: Items)

  /** How deeply containers nest. */
  function Depth(v: Json): nat {
    if v.Atom? then 0 else 1 + Deepest(v.items)
  }

  function Deepest(vs: Items): nat {
    if vs.Nil? then 0 else Max(Depth(vs.head), Deepest(vs.tail))
  }

  /** How many arrays and objects there are. */
  function Containers(v: Json): nat {
    if v.Atom? then 0 else 1 + ContainersIn(v.items)
  }

  function ContainersIn(vs: Items): nat {
    if vs.Nil? then 0 else Containers(vs.head) + ContainersIn(vs.tail)
  }

  /** How many commas separate siblings: one less than the number of items in each non-empty container. */
  function Commas(v: Json): nat {
    if v.Atom? then 0 else CommasIn(v.items)
  }

  function CommasIn(vs: Items): nat {
    if vs.Nil? then 0 else Commas(vs.head) + CommasIn(vs.tail) + (if vs.tail.Nil? then 0 else 1)
  }

  predicate WithinLimits(v: Json) {
    Depth(v) <= MAX_DEPTH && Containers(v) <= MAX_CONTAINERS && Commas(v) <= MAX_SEPARATORS
  }

  // ----- JSON texts

  predicate IsSpace(b: Byte) {
    b == 0x20 || b == 0x09 || b == 0x0A || b == 0x0D
  }

  type Space = s: seq<Byte> | forall i :: 0 <= i < |s| ==> IsSpace(s[i])

  predicate IsHex(b: Byte) {
    0x30 <= b <= 0x39 || 0x41 <= b <= 0x46 || 0x61 <= b <= 0x66
  }

  /** One unit of a string body: a byte of unescaped (UTF-8) text, a two-character escape, or \uXXXX. */
  datatype StringUnit = Plain(b: Byte) | Escape(b: Byte) | Unicode(a: Byte, b: Byte, c: Byte, d: Byte) {
    predicate Ok() {
      match this
      case Plain(b) => b >= 0x20 && b != QUOTE && b != BACKSLASH
      case Escape(b) => b == QUOTE || b == BACKSLASH || b in {0x2F, 0x62, 0x66, 0x6E, 0x72, 0x74}
      case Unicode(a, b, c, d) => IsHex(a) && IsHex(b) && IsHex(c) && IsHex(d)
    }

    function Text(): seq<Byte> {
      match this
      case Plain(b) => [b]
      case Escape(b) => [BACKSLASH, b]
      case Unicode(a, b, c, d) => [BACKSLASH, 0x75, a, b, c, d]
    }
  }

  type StringBody = s: seq<StringUnit> | forall i :: 0 <= i < |s| ==> s[i].Ok()

  /** The characters of true, false, null and of numbers. */
  predicate IsWordByte(b: Byte) {
    0x30 <= b <= 0x39 || 0x61 <= b <= 0x7A || b in {0x2B, 0x2D, 0x2E, 0x45}
  }

  type Word = s: seq<Byte> | forall i :: 0 <= i < |s| ==> IsWordByte(s[i])

  /** Concrete syntax: a value with every choice of white space and escapes made. */
  datatype Syntax =
    | WordText(word: Word)
    | StringText(body: StringBody)
    | EmptyText(isArray: bool, inside: Space)
    | ArrayText(elements: Elements)
    | ObjectText(members: Members)
  datatype Elements =
    | OneElement(before: Space, value: Syntax, after: Space)
    | MoreElements(before: Space, value: Syntax, after: Space, rest: Elements)
  datatype Members =
    | OneMember(before: Space, key: StringBody, mid: Space, pre: Space, value: Syntax, after: Space)
    | MoreMembers(before: Space, key: StringBody, mid: Space, pre: Space, value: Syntax, after: Space, rest: Members)

  function UnitsText(units: StringBody): seq<Byte> {
    if units == [] then [] else units[0].Text() + UnitsText(units[1..])
  }

  function Quoted(units: StringBody): seq<Byte> {
    [QUOTE] + UnitsText(units) + [QUOTE]
  }

  function Print(v: Syntax): seq<Byte> {
    match v
    case WordText(w) => w
    case StringText(body) => Quoted(body)
    case EmptyText(isArray, inside) =>
      if isArray then [OPEN_ARRAY] + inside + [CLOSE_ARRAY] else [OPEN_OBJECT] + inside + [CLOSE_OBJECT]
    case ArrayText(es) => [OPEN_ARRAY] + PrintElements(es) + [CLOSE_ARRAY]
    case ObjectText(ms) => [OPEN_OBJECT] + PrintMembers(ms) + [CLOSE_OBJECT]
  }

  function PrintElements(es: Elements): seq<Byte> {
    var first := es.before + Print(es.value) + es.after;
    if es.OneElement? then first else first + [COMMA] + PrintElements(es.rest)
  }

  /** Everything of a member up to its value. */
  function MemberHead(ms: Members): seq<Byte> {
    (ms.before + Quoted(ms.key)) + (ms.mid + [COLON] + ms.pre)
  }

  function PrintMembers(ms: Members): seq<Byte> {
    var first := MemberHead(ms) + Print(ms.value) + ms.after;
    if ms.OneMember? then first else first + [COMMA] + PrintMembers(ms.rest)
  }

  function Meaning(v: Syntax): Json {
    match v
    case WordText(_) => Atom
    case StringText(_) => Atom
    case EmptyText(isArray, _) => if isArray then Array(Nil) else Object(Nil)
    case ArrayText(es) => Array(ElementValues(es))
    case ObjectText(ms) => Object(MemberValues(ms))
  }

  function ElementValues(es: Elements): Items {
    Cons(Meaning(es.value), if es.OneElement? then Nil else ElementValues(es.rest))
  }

  function MemberValues(ms: Members): Items {
    Cons(Meaning(ms.value), if ms.OneMember? then Nil else MemberValues(ms.rest))
  }

  /** `raw` is a JSON text for `v`: some syntax for it, surrounded by white space. */
  ghost predicate Serialises(raw: seq<Byte>, v: Json) {
    exists lead: Space, syntax: Syntax, trail: Space :: Meaning(syntax) == v && raw == lead + Print(syntax) + trail
  }

  // ----- scanning the pieces

  lemma {:induction false} ScanConcat(a: seq<Byte>, b: seq<Byte>, s: Scanner)
    ensures Scan(a + b, s) == Scan(b, Scan(a, s))
  {
    if a == [] {
      assert a + b == b;
    } else {
      assert (a + b)[1..] == a[1..] + b;
      ScanConcat(a[1..], b, Next(s, a[0]));
    }
  }

  predicate Outside(s: Scanner) {
    s.Scanning? && !s.inString && !s.escaped
  }

  /** White space, the words and numbers, and colons leave the scanner as it is. */
  lemma {:induction false} ScanQuiet(raw: seq<Byte>, s: Scanner)
    requires Outside(s) && forall i :: 0 <= i < |raw| ==> IsSpace(raw[i]) || IsWordByte(raw[i]) || raw[i] == COLON
    ensures Scan(raw, s) == s
  {
    if raw != [] {
      ScanQuiet(raw[1..], s);
    }
  }

  lemma ScanUnit(u: StringUnit, s: Scanner)
    requires u.Ok() && s.Scanning? && s.inString && !s.escaped
    ensures Scan(u.Text(), s) == s
  {
    match u
    case Plain(b) => ScanOne(b, s);
    case Escape(b) => ScanEscape(b, s);
    case Unicode(a, b, c, d) =>
      assert u.Text() == [BACKSLASH, 0x75] + [a, b, c, d];
      ScanConcat([BACKSLASH, 0x75], [a, b, c, d], s);
      ScanEscape(0x75, s);
      ScanHex([a, b, c, d], s);
  }

  lemma ScanEscape(b: Byte, s: Scanner)
    requires s.Scanning? && s.inString && !s.escaped
    ensures Scan([BACKSLASH, b], s) == s
  {
    assert [BACKSLASH, b] == [BACKSLASH] + [b];
    ScanConcat([BACKSLASH], [b], s);
    ScanOne(BACKSLASH, s);
    ScanOne(b, s.(escaped := true));
  }

  lemma {:induction false} ScanHex(raw: seq<Byte>, s: Scanner)
    requires s.Scanning? && s.inString && !s.escaped && forall i :: 0 <= i < |raw| ==> IsHex(raw[i])
    ensures Scan(raw, s) == s
  {
    if raw != [] {
      ScanHex(raw[1..], s);
    }
  }

  lemma {:induction false} ScanUnits(units: StringBody, s: Scanner)
    requires s.Scanning? && s.inString && !s.escaped
    ensures Scan(UnitsText(units), s) == s
  {
    if units != [] {
      ScanConcat(units[0].Text(), UnitsText(units[1..]), s);
      ScanUnit(units[0], s);
      ScanUnits(units[1..], s);
    }
  }

  lemma ScanOne(b: Byte, s: Scanner)
    ensures Scan([b], s) == Next(s, b)
  {
  }

  /** A complete string leaves the scanner as it is, whatever it contains. */
  lemma ScanQuoted(units: StringBody, s: Scanner)
    requires Outside(s)
    ensures Scan(Quoted(units), s) == s
  {
    var inside := s.(inString := true);
    ScanConcat([QUOTE] + UnitsText(units), [QUOTE], s);
    ScanConcat([QUOTE], UnitsText(units), s);
    ScanOne(QUOTE, s);
    ScanUnits(units, inside);
    ScanOne(QUOTE, inside);
  }

  /** The scanner after a stretch with the given measures: all counted, or rejected. */
  function Counted(s: Scanner, depth: nat, containers: nat, commas: nat): Scanner
    requires s.Scanning?
  {
    if s.depth + depth <= MAX_DEPTH && s.containers + containers <= MAX_CONTAINERS &&
        s.separators + commas <= MAX_SEPARATORS
    then s.(containers := s.containers + containers, separators := s.separators + commas)
    else Rejected
  }

  predicate WithinSoFar(s: Scanner) {
    Outside(s) && s.depth <= MAX_DEPTH && s.containers <= MAX_CONTAINERS && s.separators <= MAX_SEPARATORS
  }

  /** Scanning a bracketed stretch, given what scanning its inside does. */
  lemma ScanBracketed(open: Byte, inside: seq<Byte>, close: Byte, s: Scanner, depth: nat, containers: nat, commas: nat)
    requires WithinSoFar(s)
    requires (open == OPEN_ARRAY && close == CLOSE_ARRAY) || (open == OPEN_OBJECT && close == CLOSE_OBJECT)
    requires var t := s.(depth := s.depth + 1, containers := s.containers + 1);
             WithinSoFar(t) ==> Scan(inside, t) == Counted(t, depth, containers, commas)
    ensures Scan([open] + inside + [close], s) == Counted(s, depth + 1, containers + 1, commas)
  {
    var t := s.(depth := s.depth + 1, containers := s.containers + 1);
    ScanConcat([open] + inside, [close], s);
    ScanConcat([open], inside, s);
    ScanOne(open, s);
    RejectedForever(inside);
    ScanOne(close, Rejected);
    if WithinSoFar(t) {
      ScanOne(close, Counted(t, depth, containers, commas));
    }
  }

  lemma ScanEmpty(isArray: bool, inside: Space, s: Scanner)
    requires WithinSoFar(s)
    ensures Scan(Print(EmptyText(isArray, inside)), s) == Counted(s, 1, 1, 0)
  {
    ScanQuiet(inside, s.(depth := s.depth + 1, containers := s.containers + 1));
    if isArray {
      ScanBracketed(OPEN_ARRAY, inside, CLOSE_ARRAY, s, 0, 0, 0);
    } else {
      ScanBracketed(OPEN_OBJECT, inside, CLOSE_OBJECT, s, 0, 0, 0);
    }
  }

  lemma {:induction false} ScanValue(v: Syntax, s: Scanner)
    requires WithinSoFar(s)
    ensures Scan(Print(v), s) == Counted(s, Depth(Meaning(v)), Containers(Meaning(v)), Commas(Meaning(v)))
    decreases v
  {
    var t := s.(depth := s.depth + 1, containers := s.containers + 1);
    match v
    case WordText(w) => ScanQuiet(w, s);
    case StringText(body) => ScanQuoted(body, s);
    case EmptyText(isArray, inside) => ScanEmpty(isArray, inside, s);
    case ArrayText(es) =>
      var vs := ElementValues(es);
      if WithinSoFar(t) { ScanElements(es, t); }
      ScanBracketed(OPEN_ARRAY, PrintElements(es), CLOSE_ARRAY, s, Deepest(vs), ContainersIn(vs), CommasIn(vs));
    case ObjectText(ms) =>
      var vs := MemberValues(ms);
      if WithinSoFar(t) { ScanMembers(ms, t); }
      ScanBracketed(OPEN_OBJECT, PrintMembers(ms), CLOSE_OBJECT, s, Deepest(vs), ContainersIn(vs), CommasIn(vs));
  }

  lemma ScanSpaced(before: Space, middle: seq<Byte>, after: Space, s: Scanner, depth: nat, containers: nat, commas: nat)
    requires WithinSoFar(s) && Scan(middle, s) == Counted(s, depth, containers, commas)
    ensures Scan(before + middle + after, s) == Counted(s, depth, containers, commas)
  {
    ScanConcat(before + middle, after, s);
    ScanConcat(before, middle, s);
    ScanQuiet(before, s);
    var t := Counted(s, depth, containers, commas);
    if t.Rejected? { RejectedForever(after); } else { ScanQuiet(after, t); }
  }

  /** A first item, a comma and the rest. */
  lemma ScanSequence(first: seq<Byte>, rest: seq<Byte>, s: Scanner, v: Json, vs: Items)
    requires WithinSoFar(s) && Scan(first, s) == Counted(s, Depth(v), Containers(v), Commas(v)) && vs.Cons?
    requires forall t :: WithinSoFar(t) ==> Scan(rest, t) == Counted(t, Deepest(vs), ContainersIn(vs), CommasIn(vs))
    ensures var all := Cons(v, vs);
            Scan(first + [COMMA] + rest, s) == Counted(s, Deepest(all), ContainersIn(all), CommasIn(all))
  {
    ScanConcat(first + [COMMA], rest, s);
    ScanConcat(first, [COMMA], s);
    var t := Counted(s, Depth(v), Containers(v), Commas(v));
    ScanOne(COMMA, t);
    RejectedForever(rest);
  }

  lemma {:induction false} ScanElements(es: Elements, s: Scanner)
    requires WithinSoFar(s)
    ensures var vs := ElementValues(es);
            Scan(PrintElements(es), s) == Counted(s, Deepest(vs), ContainersIn(vs), CommasIn(vs))
    decreases es
  {
    var v := Meaning(es.value);
    ScanValue(es.value, s);
    ScanSpaced(es.before, Print(es.value), es.after, s, Depth(v), Containers(v), Commas(v));
    if es.MoreElements? {
      forall t | WithinSoFar(t)
        ensures Scan(PrintElements(es.rest), t) ==
                Counted(t, Deepest(ElementValues(es.rest)), ContainersIn(ElementValues(es.rest)),
                    CommasIn(ElementValues(es.rest)))
      {
        ScanElements(es.rest, t);
      }
      ScanSequence(es.before + Print(es.value) + es.after, PrintElements(es.rest), s, v, ElementValues(es.rest));
    }
  }

  lemma ScanHead(ms: Members, s: Scanner)
    requires Outside(s)
    ensures Scan(MemberHead(ms), s) == s
  {
    ScanConcat(ms.before + Quoted(ms.key), ms.mid + [COLON] + ms.pre, s);
    ScanConcat(ms.before, Quoted(ms.key), s);
    ScanQuiet(ms.before, s);
    ScanQuoted(ms.key, s);
    ScanQuiet(ms.mid + [COLON] + ms.pre, s);
  }

  lemma ScanMember(head: seq<Byte>, middle: seq<Byte>, after: Space, s: Scanner, depth: nat, containers: nat,
                   commas: nat)
    requires WithinSoFar(s) && Scan(head, s) == s && Scan(middle, s) == Counted(s, depth, containers, commas)
    ensures Scan(head + middle + after, s) == Counted(s, depth, containers, commas)
  {
    ScanConcat(head, middle, s);
    assert [] + (head + middle) + after == head + middle + after;
    ScanSpaced([], head + middle, after, s, depth, containers, commas);
  }

  lemma {:induction false} ScanMembers(ms: Members, s: Scanner)
    requires WithinSoFar(s)
    ensures var vs := MemberValues(ms);
            Scan(PrintMembers(ms), s) == Counted(s, Deepest(vs), ContainersIn(vs), CommasIn(vs))
    decreases ms
  {
    var v := Meaning(ms.value);
    ScanValue(ms.value, s);
    ScanHead(ms, s);
    ScanMember(MemberHead(ms), Print(ms.value), ms.after, s, Depth(v), Containers(v), Commas(v));
    if ms.MoreMembers? {
      forall t | WithinSoFar(t)
        ensures Scan(PrintMembers(ms.rest), t) ==
                Counted(t, Deepest(MemberValues(ms.rest)), ContainersIn(MemberValues(ms.rest)),
                    CommasIn(MemberValues(ms.rest)))
      {
        ScanMembers(ms.rest, t);
      }
      ScanSequence(MemberHead(ms) + Print(ms.value) + ms.after, PrintMembers(ms.rest), s, v, MemberValues(ms.rest));
    }
  }

  /** For every JSON value and every text for it, the scanner accepts exactly when the tree is within the limits. */
  lemma PreflightMeasuresTheTree(raw: seq<Byte>, v: Json)
    requires Serialises(raw, v)
    ensures Accepts(raw) <==> WithinLimits(v)
  {
    var lead: Space, syntax: Syntax, trail: Space :| Meaning(syntax) == v && raw == lead + Print(syntax) + trail;
    ScanValue(syntax, START);
    ScanSpaced(lead, Print(syntax), trail, START, Depth(v), Containers(v), Commas(v));
  }
}
