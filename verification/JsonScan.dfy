/**
 The skip-scanner of internal/proxy/parse.go.  A character stands for a byte.

 Every loop is a method that is proved equal to a small recursive function; JsonGrammar proves
 what those functions do on texts of RFC 8259.
 */
module JsonScan {
  import opened Options

  /** An end position and whether the scan succeeded. */
  datatype Skip = Skip(end: nat, ok: bool)

  const MAX_DEPTH: nat := 64

  predicate IsSpace(c: char) {
    c == ' ' || c == '\t' || c == '\r' || c == '\n'
  }

  predicate IsDelimiter(c: char) {
    c == ',' || c == '}' || c == ']' || IsSpace(c)
  }

  // ---------------------------------------------------------------- white space

  method SkipJsonSpace(s: string, start: nat) returns (i: nat)
    requires start <= |s|
    ensures i == SkipSpace(s, start)
  {
    i := start;
    while i < |s|
      invariant start <= i <= |s|
      invariant SkipSpace(s, i) == SkipSpace(s, start)
    {
      if !IsSpace(s[i]) {
        return;
      }
      i := i + 1;
    }
  }

  /** The first position that is not white space. */
  function SkipSpace(s: string, i: nat): (r: nat)
    requires i <= |s|
    ensures i <= r <= |s|
    ensures forall j :: i <= j < r ==> IsSpace(s[j])
    ensures r < |s| ==> !IsSpace(s[r])
    decreases |s| - i
  {
    if i < |s| && IsSpace(s[i]) then SkipSpace(s, i + 1) else i
  }

  // ---------------------------------------------------------------- strings

  /** The forward automaton of section 7 of RFC 8259: a backslash escapes the next byte. */
  function ForwardString(s: string, j: nat): (r: Skip)
    ensures r.end <= |s| && (j < |s| ==> j < r.end)
    ensures r.ok ==> j < r.end
    decreases |s| - j
  {
    if j >= |s| then Skip(|s|, false)
    else if s[j] == '"' then Skip(j + 1, true)
    else if s[j] == '\\' then ForwardString(s, j + 2)
    else ForwardString(s, j + 1)
  }

  /** The number of backslashes right before `q`, not counting any before `i`. */
  function Backslashes(s: string, i: nat, q: nat): nat
    requires i <= q <= |s|
  {
    if q > i && s[q - 1] == '\\' then 1 + Backslashes(s, i, q - 1) else 0
  }

  lemma {:induction false} BackslashesFrom(s: string, i: nat, k: nat, q: nat)
    requires i <= k <= q <= |s|
    ensures Backslashes(s, i, q) == Backslashes(s, k, q) + if Backslashes(s, k, q) == q - k then Backslashes(s, i, k)
      else 0
    ensures Backslashes(s, k, q) <= q - k
    decreases q
  {
    if k < q && s[q - 1] == '\\' {
      BackslashesFrom(s, i, k, q - 1);
    }
  }

  /** Jumping to the next quote and counting backslashes backwards is one run of the automaton. */
  lemma {:induction false} JumpToQuote(s: string, i: nat, q: nat)
    requires i <= q < |s| && s[q] == '"' && forall j :: i <= j < q ==> s[j] != '"'
    ensures ForwardString(s, i) == if Backslashes(s, i, q) % 2 == 0 then Skip(q + 1, true) else ForwardString(s, q + 1)
    decreases q - i
  {
    if i < q {
      if s[i] != '\\' {
        JumpToQuote(s, i + 1, q);
        BackslashesFrom(s, i, i + 1, q);
      } else if i + 1 < q {
        JumpToQuote(s, i + 2, q);
        BackslashesFrom(s, i, i + 2, q);
        BackslashesFrom(s, i, i + 1, i + 2);
      } else {
        assert Backslashes(s, i, i) == 0 && Backslashes(s, i, q) == 1;
      }
    }
  }

  lemma {:induction false} NoQuote(s: string, i: nat)
    requires i <= |s| && forall j :: i <= j < |s| ==> s[j] != '"'
    ensures ForwardString(s, i) == Skip(|s|, false)
    decreases |s| - i
  {
    if i < |s| {
      if s[i] != '\\' {
        NoQuote(s, i + 1);
      } else if i + 1 < |s| {
        NoQuote(s, i + 2);
      }
    }
  }

  method IndexQuote(s: string, i: nat) returns (q: int)
    requires i <= |s|
    ensures q < 0 ==> forall j :: i <= j < |s| ==> s[j] != '"'
    ensures q >= 0 ==> i <= q < |s| && s[q] == '"' && forall j :: i <= j < q ==> s[j] != '"'
  {
    q := i;
    while q < |s|
      invariant i <= q <= |s|
      invariant forall j :: i <= j < q ==> s[j] != '"'
    {
      if s[q] == '"' {
        return;
      }
      q := q + 1;
    }
    q := -1;
  }

  /** The position after the closing quote of the string that starts at `start`. */
  function SkipString(s: string, start: nat): Skip {
    if start >= |s| || s[start] != '"' then Skip(start, false) else ForwardString(s, start + 1)
  }

  method SkipJsonString(s: string, start: nat) returns (r: Skip)
    ensures r == SkipString(s, start)
  {
    var i := start;
    if i >= |s| || s[i] != '"' {
      return Skip(i, false);
    }
    i := i + 1;
    while i < |s|
      invariant start < i <= |s|
      invariant ForwardString(s, i) == ForwardString(s, start + 1)
    {
      var quote := IndexQuote(s, i);
      if quote < 0 {
        NoQuote(s, i);
        return Skip(|s|, false);
      }
      var backslashes: nat := 0;
      var j := quote - 1;
      while j >= i && s[j] == '\\'
        invariant i - 1 <= j < quote
        invariant backslashes + Backslashes(s, i, j + 1) == Backslashes(s, i, quote)
      {
        backslashes := backslashes + 1;
        j := j - 1;
      }
      JumpToQuote(s, i, quote);
      if backslashes % 2 == 0 {
        return Skip(quote + 1, true);
      }
      i := quote + 1;
    }
    return Skip(|s|, false);
  }

  // ---------------------------------------------------------------- values

  /** The container walk: strings are jumped over, `stack` holds the expected closers. */
  function Walk(s: string, i: nat, stack: seq<char>): Skip
    requires i <= |s|
    decreases |s| - i
  {
    if i == |s| then Skip(i, false)
    else if s[i] == '"' then
      var r := SkipString(s, i);
      if r.ok then Walk(s, r.end, stack) else r
    else if s[i] == '{' || s[i] == '[' then
      if |stack| == MAX_DEPTH then Skip(i, false)
      else Walk(s, i + 1, stack + [if s[i] == '{' then '}' else ']'])
    else if s[i] == '}' || s[i] == ']' then
      if stack == [] || s[i] != stack[|stack| - 1] then Skip(i, false)
      else if |stack| == 1 then Skip(i + 1, true)
      else Walk(s, i + 1, stack[..|stack| - 1])
    else Walk(s, i + 1, stack)
  }

  /** The end of a number or literal: everything up to the next delimiter. */
  function SkipScalar(s: string, i: nat): (r: nat)
    requires i <= |s|
    ensures i <= r <= |s|
    decreases |s| - i
  {
    if i < |s| && !IsDelimiter(s[i]) then SkipScalar(s, i + 1) else i
  }

  function SkipValue(s: string, i: nat): Skip
    requires i <= |s|
  {
    if i == |s| then Skip(i, false)
    else if s[i] == '"' then SkipString(s, i)
    else if s[i] == '{' || s[i] == '[' then Walk(s, i, [])
    else Skip(SkipScalar(s, i), SkipScalar(s, i) > i)
  }

  method WalkContainer(s: string, start: nat) returns (r: Skip)
    requires start <= |s|
    ensures r == Walk(s, start, [])
  {
    var closers := new char[MAX_DEPTH];
    var depth: nat := 0;
    var i := start;
    while i < |s|
      invariant start <= i <= |s| && depth <= MAX_DEPTH
      invariant Walk(s, i, closers[..depth]) == Walk(s, start, [])
      decreases |s| - i
    {
      ghost var stack := closers[..depth];
      if s[i] == '"' {
        var q := SkipJsonString(s, i);
        if !q.ok {
          return q;
        }
        i := q.end;
      } else {
        if s[i] == '{' || s[i] == '[' {
          if depth == MAX_DEPTH {
            return Skip(i, false);
          }
          closers[depth] := if s[i] == '{' then '}' else ']';
          depth := depth + 1;
          assert closers[..depth] == stack + [closers[depth - 1]];
        } else if s[i] == '}' || s[i] == ']' {
          if depth == 0 || s[i] != closers[depth - 1] {
            return Skip(i, false);
          }
          depth := depth - 1;
          if depth == 0 {
            return Skip(i + 1, true);
          }
          assert closers[..depth] == stack[..|stack| - 1];
        }
        i := i + 1;
      }
    }
    return Skip(i, false);
  }

  method SkipJsonValue(s: string, start: nat) returns (r: Skip)
    requires start <= |s|
    ensures r == SkipValue(s, start)
  {
    if start == |s| {
      return Skip(start, false);
    }
    if s[start] == '"' {
      r := SkipJsonString(s, start);
    } else if s[start] == '{' || s[start] == '[' {
      r := WalkContainer(s, start);
    } else {
      var i := start;
      while i < |s| && !IsDelimiter(s[i])
        invariant start <= i <= |s|
        invariant SkipScalar(s, i) == SkipScalar(s, start)
      {
        i := i + 1;
      }
      r := Skip(i, i > start);
    }
  }

  lemma {:induction false} SkipBounds(s: string, i: nat)
    requires i <= |s|
    ensures SkipString(s, i).end <= |s| && (SkipString(s, i).ok ==> i + 1 < SkipString(s, i).end)
    ensures SkipValue(s, i).end <= |s| && i <= SkipValue(s, i).end
  {
    WalkBounds(s, i, []);
  }

  lemma {:induction false} WalkBounds(s: string, i: nat, stack: seq<char>)
    requires i <= |s|
    ensures i <= Walk(s, i, stack).end <= |s|
    decreases |s| - i
  {
    if i < |s| {
      if s[i] == '"' {
        var r := SkipString(s, i);
        if r.ok {
          WalkBounds(s, r.end, stack);
        }
      } else {
        if s[i] == '{' || s[i] == '[' {
          WalkBounds(s, i + 1, stack + [if s[i] == '{' then '}' else ']']);
        } else if s[i] == '}' || s[i] == ']' {
          if |stack| > 1 {
            WalkBounds(s, i + 1, stack[..|stack| - 1]);
          }
        } else {
          WalkBounds(s, i + 1, stack);
        }
      }
    }
  }

  // ---------------------------------------------------------------- the request envelope

  datatype Field = Model | Stream | Priority | User

  /** One call of the JSON decoder: the value text at `start..end` is decoded into `field`. */
  datatype Hit = Hit(field: Field, start: nat, end: nat)

  /** Decodes a quoted key that contains escapes; None is a decoding error. */
  type KeyDecoder = string -> Option<string>

  function FieldOf(name: string): Option<Field> {
    if name == "model" then Some(Model)
    else if name == "stream" then Some(Stream)
    else if name == "priority" then Some(Priority)
    else if name == "user" then Some(User)
    else None
  }

  /** The field a raw key selects; None when an escaped key does not decode. */
  function KeyField(raw: string, decode: KeyDecoder): Option<Option<Field>> {
    if FieldOf(raw).Some? then Some(FieldOf(raw))
    else if '\\' in raw then
      var name := decode("\"" + raw + "\"");
      if name.Some? then Some(FieldOf(name.value)) else None
    else Some(None)
  }

  datatype Envelope = Envelope(ok: bool, hits: seq<Hit>)

  class RequestMeta {
    /** The decoder calls made on this record, in order. */
    var decoded: seq<Hit>

    constructor ()
      ensures decoded == []
    {
      decoded := [];
    }
  }

  /** The outcome of one member: where the next one starts, or the end of the scan. */
  datatype MemberScan = Done(ok: bool, hits: seq<Hit>) | Next(i: nat, hits: seq<Hit>)

  /** One round of the member loop, at `i0` with the decoder calls `hits` behind it. */
  function ScanMember(s: string, decode: KeyDecoder, i0: nat, hits: seq<Hit>): (r: MemberScan)
    requires i0 <= |s|
    ensures r.Next? ==> i0 < r.i <= |s|
  {
    var i := SkipSpace(s, i0);
    if i == |s| then Done(false, hits)
    else if s[i] == '}' then Done(SkipSpace(s, i + 1) == |s|, hits)
    else
      var key := SkipString(s, i);
      if !key.ok then Done(false, hits) else
      var c := SkipSpace(s, key.end);
      if c == |s| || s[c] != ':' then Done(false, hits) else
      var v := SkipSpace(s, c + 1);
      var value := SkipValue(s, v);
      assert v <= value.end <= |s| by { SkipBounds(s, v); }
      if !value.ok then Done(false, hits) else
      var field := KeyField(s[i + 1..key.end - 1], decode);
      if field.None? then Done(false, hits) else
      var hits' := if field.value.Some? then hits + [Hit(field.value.value, v, value.end)] else hits;
      var e := SkipSpace(s, value.end);
      if e == |s| then Done(false, hits')
      else if s[e] == ',' then Next(e + 1, hits')
      else if s[e] == '}' then Done(SkipSpace(s, e + 1) == |s|, hits')
      else Done(false, hits')
  }

  function ScanMembers(s: string, decode: KeyDecoder, i: nat, hits: seq<Hit>): Envelope
    requires i <= |s|
    decreases |s| - i
  {
    match ScanMember(s, decode, i, hits)
    case Done(ok, h) => Envelope(ok, h)
    case Next(j, h) => ScanMembers(s, decode, j, h)
  }

  function ScanEnvelope(s: string, decode: KeyDecoder): Envelope {
    var i := SkipSpace(s, 0);
    if i == |s| || s[i] != '{' then Envelope(false, []) else ScanMembers(s, decode, i + 1, [])
  }

  method ScanOne(s: string, decode: KeyDecoder, i0: nat, meta: RequestMeta) returns (r: MemberScan)
    requires i0 <= |s|
    modifies meta
    ensures r == ScanMember(s, decode, i0, old(meta.decoded)) && meta.decoded == r.hits
  {
    hide SkipSpace, SkipString, SkipValue, KeyField;
    var i := SkipJsonSpace(s, i0);
    SkipBounds(s, i);
    if i == |s| {
      return Done(false, meta.decoded);
    }
    if s[i] == '}' {
      var e := SkipJsonSpace(s, i + 1);
      return Done(e == |s|, meta.decoded);
    }
    var key := SkipJsonString(s, i);
    if !key.ok {
      return Done(false, meta.decoded);
    }
    var c := SkipJsonSpace(s, key.end);
    if c == |s| || s[c] != ':' {
      return Done(false, meta.decoded);
    }
    var v := SkipJsonSpace(s, c + 1);
    var value := SkipJsonValue(s, v);
    SkipBounds(s, v);
    if !value.ok {
      return Done(false, meta.decoded);
    }
    var field := KeyField(s[i + 1..key.end - 1], decode);
    if field.None? {
      return Done(false, meta.decoded);
    }
    if field.value.Some? {
      meta.decoded := meta.decoded + [Hit(field.value.value, v, value.end)];
    }
    var e := SkipJsonSpace(s, value.end);
    if e == |s| {
      return Done(false, meta.decoded);
    }
    if s[e] == ',' {
      return Next(e + 1, meta.decoded);
    } else if s[e] == '}' {
      var z := SkipJsonSpace(s, e + 1);
      return Done(z == |s|, meta.decoded);
    }
    return Done(false, meta.decoded);
  }

  /** scanRequestMeta: decodes the four small fields and skips everything else. */
  method ScanRequestMeta(body: string, decode: KeyDecoder, meta: RequestMeta) returns (ok: bool)
    requires meta.decoded == []
    modifies meta
    ensures Envelope(ok, meta.decoded) == ScanEnvelope(body, decode)
  {
    var i := SkipJsonSpace(body, 0);
    if i == |body| || body[i] != '{' {
      return false;
    }
    i := i + 1;
    ghost var start := i;
    while true
      invariant start <= i <= |body|
      invariant ScanMembers(body, decode, i, meta.decoded) == ScanMembers(body, decode, start, [])
      decreases |body| - i
    {
      var r := ScanOne(body, decode, i, meta);
      match r {
        case Done(b, _) => return b;
        case Next(j, _) => i := j;
      }
    }
  }
}
