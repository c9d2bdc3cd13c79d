/**
 The grammar of RFC 8259 (sections 2 to 7) as concrete syntax trees with their white space, and
 what the scanner does on every text of that grammar.
 */
module JsonGrammar {
  import opened Options
  import opened JsonScan

  // ---------------------------------------------------------------- syntax trees

  datatype Json =
    | JString(body: string)
    | JLiteral(word: string)
    | JNumber(minus: bool, whole: string, frac: string, exp: string)
    | JEmpty(curly: bool, gap: string)
    | JArray(items: Items)
    | JObject(members: Members)

  /** ws value ws, separated by commas. */
  datatype Items =
    | Item(pre: string, value: Json, post: string, rest: Items)
    | LastItem(pre: string, value: Json, post: string)

  /** ws string ws : ws, in front of a member's value. */
  datatype Name = Name(pre: string, body: string, left: string, right: string)

  datatype Members =
    | Member(name: Name, value: Json, post: string, rest: Members)
    | LastMember(name: Name, value: Json, post: string)

  /** ws { members } ws, or ws { ws } ws. */
  datatype Document =
    | Document(lead: string, members: Members, trail: string)
    | EmptyDocument(lead: string, gap: string, trail: string)

  // ---------------------------------------------------------------- well-formedness

  /** Section 2: space, tab, carriage return and line feed. */
  predicate Blank(t: string) {
    forall i :: 0 <= i < |t| ==> t[i] == ' ' || t[i] == '\t' || t[i] == '\r' || t[i] == '\n'
  }

  predicate Digits(t: string) { forall i :: 0 <= i < |t| ==> '0' <= t[i] <= '9' }

  predicate Hex(c: char) { '0' <= c <= '9' || 'a' <= c <= 'f' || 'A' <= c <= 'F' }

  /** Section 7: unescaped characters, two-character escapes and \uXXXX. */
  predicate StringBody(b: string) {
    if b == [] then true
    else if b[0] == '\\' then
      |b| >= 2 &&
      if b[1] == 'u' then |b| >= 6 && Hex(b[2]) && Hex(b[3]) && Hex(b[4]) && Hex(b[5]) && StringBody(b[6..])
      else b[1] in "\"\\/bfnrt" && StringBody(b[2..])
    else b[0] >= ' ' && b[0] != '"' && StringBody(b[1..])
  }

  /** Section 6. */
  predicate NumberOk(whole: string, frac: string, exp: string) {
    && Digits(whole) && |whole| > 0 && (whole[0] == '0' ==> |whole| == 1)
    && (frac != [] ==> |frac| > 1 && frac[0] == '.' && Digits(frac[1..]))
    && (exp == [] || (exp[0] in "eE" && |exp| > 1 && (Digits(exp[1..])
      || (exp[1] in "+-" && |exp| > 2 && Digits(exp[2..])))))
  }

  predicate Ok(v: Json) {
    match v
    case JString(b) => StringBody(b)
    case JLiteral(w) => w == "true" || w == "false" || w == "null"
    case JNumber(_, whole, frac, exp) => NumberOk(whole, frac, exp)
    case JEmpty(_, gap) => Blank(gap)
    case JArray(items) => ItemsOk(items)
    case JObject(members) => MembersOk(members)
  }

  predicate ItemsOk(xs: Items) {
    Blank(xs.pre) && Ok(xs.value) && Blank(xs.post) && (xs.Item? ==> ItemsOk(xs.rest))
  }

  predicate NameOk(n: Name) { Blank(n.pre) && StringBody(n.body) && Blank(n.left) && Blank(n.right) }

  predicate MembersOk(ms: Members) {
    NameOk(ms.name) && Ok(ms.value) && Blank(ms.post) && (ms.Member? ==> MembersOk(ms.rest))
  }

  // ---------------------------------------------------------------- printing and nesting

  function Print(v: Json): string {
    match v
    case JString(b) => "\"" + b + "\""
    case JLiteral(w) => w
    case JNumber(minus, whole, frac, exp) => (if minus then "-" else "") + whole + frac + exp
    case JEmpty(curly, gap) => (if curly then "{" else "[") + gap + (if curly then "}" else "]")
    case JArray(items) => "[" + PrintItems(items) + "]"
    case JObject(members) => "{" + PrintMembers(members) + "}"
  }

  function PrintItems(xs: Items): string {
    xs.pre + Print(xs.value) + xs.post + if xs.Item? then "," + PrintItems(xs.rest) else ""
  }

  function PrintName(n: Name): string {
    n.pre + ("\"" + n.body + "\"") + n.left + ":" + n.right
  }

  function PrintMembers(ms: Members): string {
    PrintName(ms.name) + Print(ms.value) + ms.post + if ms.Member? then "," + PrintMembers(ms.rest) else ""
  }

  function PrintDocument(d: Document): string {
    match d
    case Document(lead, ms, trail) => lead + "{" + PrintMembers(ms) + "}" + trail
    case EmptyDocument(lead, gap, trail) => lead + "{" + gap + "}" + trail
  }

  function Max(a: nat, b: nat): nat { if a < b then b else a }

  function Depth(v: Json): nat {
    match v
    case JEmpty(_, _) => 1
    case JArray(items) => 1 + ItemsDepth(items)
    case JObject(members) => 1 + MembersDepth(members)
    case _ => 0
  }

  function ItemsDepth(xs: Items): nat {
    Max(Depth(xs.value), if xs.Item? then ItemsDepth(xs.rest) else 0)
  }

  function MembersDepth(ms: Members): nat {
    Max(Depth(ms.value), if ms.Member? then MembersDepth(ms.rest) else 0)
  }

  // ---------------------------------------------------------------- texts in place

  /** `t` stands at position `i` of `s`. */
  predicate At(s: string, i: nat, t: string) {
    i + |t| <= |s| && s[i..i + |t|] == t
  }

  lemma {:induction false} AtSplit(s: string, i: nat, a: string, b: string)
    ensures At(s, i, a + b) <==> At(s, i, a) && At(s, i + |a|, b)
  {
    if At(s, i, a + b) {
      assert s[i..i + |a|] == (a + b)[..|a|];
      assert s[i + |a|..i + |a| + |b|] == (a + b)[|a|..];
    }
    if At(s, i, a) && At(s, i + |a|, b) {
      assert s[i..i + |a + b|] == s[i..i + |a|] + s[i + |a|..i + |a| + |b|];
    }
  }

  lemma {:induction false} AtChar(s: string, i: nat, t: string, k: nat)
    requires At(s, i, t) && k < |t|
    ensures i + k < |s| && s[i + k] == t[k]
  {
    assert s[i..i + |t|][k] == s[i + k];
  }

  lemma {:induction false} AtInside(s: string, i: nat, b: string)
    requires At(s, i, "\"" + b + "\"")
    ensures i + 1 + |b| <= |s| && s[i + 1..i + |b| + 1] == b
  {
    hide At;
    assert "\"" + b + "\"" == "\"" + (b + "\"");
    AtSplit(s, i, "\"", b + "\"");
    AtSplit(s, i + 1, b, "\"");
    AtText(s, i + 1, b);
  }

  lemma {:induction false} AtText(s: string, i: nat, t: string)
    ensures At(s, i, t) <==> i + |t| <= |s| && s[i..i + |t|] == t
  {
  }

  lemma {:induction false} AtTail(s: string, i: nat, t: string, k: nat)
    requires At(s, i, t) && k <= |t|
    ensures At(s, i + k, t[k..])
  {
    hide At;
    AtSplit(s, i, t[..k], t[k..]);
    assert t == t[..k] + t[k..];
  }

  // ---------------------------------------------------------------- strings and scalars

  /** A body of section 7 ends the automaton exactly at its closing quote. */
  lemma {:induction false} ForwardBody(s: string, i: nat, b: string)
    requires StringBody(b) && At(s, i, b + "\"")
    ensures ForwardString(s, i) == Skip(i + |b| + 1, true)
    decreases |b|
  {
    hide At;
    AtChar(s, i, b + "\"", 0);
    if b != [] {
      if b[0] == '\\' {
        AtChar(s, i, b + "\"", 1);
        if b[1] == 'u' {
          AtTail(s, i, b + "\"", 6);
          assert (b + "\"")[6..] == b[6..] + "\"";
          ForwardBody(s, i + 6, b[6..]);
          AtChar(s, i, b + "\"", 2);
          AtChar(s, i, b + "\"", 3);
          AtChar(s, i, b + "\"", 4);
          AtChar(s, i, b + "\"", 5);
          assert Hex(s[i + 5]) && ForwardString(s, i + 5) == ForwardString(s, i + 6);
          assert Hex(s[i + 4]) && ForwardString(s, i + 4) == ForwardString(s, i + 5);
          assert Hex(s[i + 3]) && ForwardString(s, i + 3) == ForwardString(s, i + 4);
          assert Hex(s[i + 2]) && ForwardString(s, i + 2) == ForwardString(s, i + 3);
        } else {
          AtTail(s, i, b + "\"", 2);
          assert (b + "\"")[2..] == b[2..] + "\"";
          ForwardBody(s, i + 2, b[2..]);
        }
      } else {
        AtTail(s, i, b + "\"", 1);
        assert (b + "\"")[1..] == b[1..] + "\"";
        ForwardBody(s, i + 1, b[1..]);
      }
    }
  }

  lemma {:induction false} StringEnds(s: string, i: nat, b: string)
    requires StringBody(b) && At(s, i, "\"" + b + "\"")
    ensures SkipString(s, i) == Skip(i + |b| + 2, true)
  {
    hide At;
    assert "\"" + b + "\"" == "\"" + (b + "\"");
    AtSplit(s, i, "\"", b + "\"");
    AtChar(s, i, "\"", 0);
    ForwardBody(s, i + 1, b);
  }

  /** Neither structure nor delimiter nor quote. */
  predicate Inert(t: string) {
    forall k :: 0 <= k < |t| ==> !IsDelimiter(t[k]) && t[k] != '"' && t[k] != '{' && t[k] != '['
  }

  predicate IsScalar(v: Json) { v.JLiteral? || v.JNumber? }

  lemma {:induction false} InertConcat(a: string, b: string)
    requires Inert(a) && Inert(b)
    ensures Inert(a + b)
  {
  }

  lemma {:induction false} DigitsInert(t: string)
    requires Digits(t)
    ensures Inert(t)
  {
  }

  lemma {:induction false} ScalarInert(v: Json)
    requires IsScalar(v) && Ok(v)
    ensures Inert(Print(v)) && Print(v) != []
  {
    match v
    case JLiteral(w) =>
    case JNumber(minus, whole, frac, exp) =>
      DigitsInert(whole);
      if frac != [] {
        DigitsInert(frac[1..]);
        InertConcat(".", frac[1..]);
        assert frac == "." + frac[1..];
      }
      ExpInert(exp, whole, frac);
      InertConcat(if minus then "-" else "", whole);
      InertConcat((if minus then "-" else "") + whole, frac);
      InertConcat((if minus then "-" else "") + whole + frac, exp);
  }

  lemma {:induction false} ExpInert(exp: string, whole: string, frac: string)
    requires NumberOk(whole, frac, exp)
    ensures Inert(exp)
  {
    if exp != [] {
      assert exp[0] == 'e' || exp[0] == 'E';
      if !Digits(exp[1..]) {
        DigitsInert(exp[2..]);
        InertConcat(exp[..2], exp[2..]);
        assert exp == exp[..2] + exp[2..];
      } else {
        DigitsInert(exp[1..]);
        InertConcat(exp[..1], exp[1..]);
        assert exp == exp[..1] + exp[1..];
      }
    }
  }

  lemma {:induction false} ScalarEnds(s: string, i: nat, t: string)
    requires Inert(t) && At(s, i, t) && (i + |t| < |s| ==> IsDelimiter(s[i + |t|]))
    ensures SkipScalar(s, i) == i + |t|
    decreases |t|
  {
    hide At;
    if t != [] {
      AtChar(s, i, t, 0);
      AtTail(s, i, t, 1);
      ScalarEnds(s, i + 1, t[1..]);
    }
  }

  // ---------------------------------------------------------------- the container walk

  /** Bytes that the container walk steps over one by one. */
  predicate Flat(t: string) {
    forall k :: 0 <= k < |t| ==> t[k] != '"' && t[k] != '{' && t[k] != '[' && t[k] != '}' && t[k] != ']'
  }

  lemma {:induction false} WalkFlat(s: string, i: nat, t: string, stack: seq<char>)
    requires Flat(t) && At(s, i, t)
    ensures Walk(s, i, stack) == Walk(s, i + |t|, stack)
    decreases |t|
  {
    hide At;
    if t != [] {
      AtChar(s, i, t, 0);
      AtTail(s, i, t, 1);
      WalkFlat(s, i + 1, t[1..], stack);
    }
  }

  lemma {:induction false} WalkString(s: string, i: nat, b: string, stack: seq<char>)
    requires StringBody(b) && At(s, i, "\"" + b + "\"")
    ensures Walk(s, i, stack) == Walk(s, i + |b| + 2, stack)
  {
    hide At, ForwardString, StringBody, SkipString;
    StringEnds(s, i, b);
    AtChar(s, i, "\"" + b + "\"", 0);
  }

  lemma {:induction false} AtBracket(s: string, i: nat, a: string, t: string, z: string)
    requires At(s, i, a + t + z) && |a| == |z| == 1
    ensures At(s, i + 1, t) && i + 1 + |t| < |s| && s[i] == a[0] && s[i + 1 + |t|] == z[0]
  {
    hide At;
    AtSplit(s, i, a + t, z);
    AtSplit(s, i, a, t);
    AtChar(s, i, a, 0);
    AtChar(s, i + 1 + |t|, z, 0);
  }

  lemma {:induction false} WalkBlank(s: string, i: nat, t: string, stack: seq<char>)
    requires Blank(t) && At(s, i, t)
    ensures Walk(s, i, stack) == Walk(s, i + |t|, stack)
  {
    hide At, Walk;
    WalkFlat(s, i, t, stack);
  }

  /** Entering a container pushes its closer, leaving it pops. */
  lemma {:induction false} WalkBracket(s: string, i: nat, curly: bool, t: string, stack: seq<char>)
    requires At(s, i, (if curly then "{" else "[") + t + (if curly then "}" else "]")) && |stack| < MAX_DEPTH
    requires var inner := stack + [if curly then '}' else ']']; Walk(s, i + 1, inner) == Walk(s, i + 1 + |t|, inner)
    ensures At(s, i + 1, t)
    ensures Walk(s, i, stack) == if stack == [] then Skip(i + |t| + 2, true) else Walk(s, i + |t| + 2, stack)
  {
    hide At, SkipString;
    AtBracket(s, i, if curly then "{" else "[", t, if curly then "}" else "]");
    var inner := stack + [if curly then '}' else ']'];
    assert inner[..|inner| - 1] == stack;
  }

  /** Inside a container the walk passes over any value and comes out with the same closers. */
  lemma {:induction false} WalkValue(s: string, i: nat, v: Json, stack: seq<char>)
    requires Ok(v) && At(s, i, Print(v)) && stack != [] && |stack| + Depth(v) <= MAX_DEPTH
    ensures Walk(s, i, stack) == Walk(s, i + |Print(v)|, stack)
    decreases v
  {
    hide At, Walk;
    match v
    case JString(b) => WalkString(s, i, b, stack);
    case JLiteral(_) => ScalarInert(v); WalkFlat(s, i, Print(v), stack);
    case JNumber(_, _, _, _) => ScalarInert(v); WalkFlat(s, i, Print(v), stack);
    case JEmpty(_, _) => WalkContainerText(s, i, v, stack);
    case JArray(_) => WalkContainerText(s, i, v, stack);
    case JObject(_) => WalkContainerText(s, i, v, stack);
  }

  lemma {:induction false} WalkContainerText(s: string, i: nat, v: Json, stack: seq<char>)
    requires Ok(v) && At(s, i, Print(v)) && |stack| + Depth(v) <= MAX_DEPTH && (v.JEmpty? || v.JArray? || v.JObject?)
    ensures Walk(s, i, stack) == if stack == [] then Skip(i + |Print(v)|, true) else Walk(s, i + |Print(v)|, stack)
    decreases v, 0
  {
    hide At, Walk;
    var curly := v.JObject? || (v.JEmpty? && v.curly);
    var inner := stack + [if curly then '}' else ']'];
    var a := if curly then "{" else "[";
    var t := match v
             case JEmpty(_, gap) => gap
             case JArray(items) => PrintItems(items)
             case JObject(ms) => PrintMembers(ms)
             case _ => "";
    AtSplit(s, i, a + t, if curly then "}" else "]");
    AtSplit(s, i, a, t);
    match v {
      case JEmpty(_, gap) => WalkFlat(s, i + 1, gap, inner);
      case JArray(items) => WalkItems(s, i + 1, items, inner);
      case JObject(ms) => WalkMembers(s, i + 1, ms, inner);
      case _ =>
    }
    WalkBracket(s, i, curly, t, stack);
  }

  lemma {:induction false} WalkItems(s: string, i: nat, xs: Items, stack: seq<char>)
    requires ItemsOk(xs) && At(s, i, PrintItems(xs)) && stack != [] && |stack| + ItemsDepth(xs) <= MAX_DEPTH
    ensures Walk(s, i, stack) == Walk(s, i + |PrintItems(xs)|, stack)
    decreases xs
  {
    hide At, Walk, Print, PrintItems, Depth, Ok, Blank;
    AtItem(s, i, xs);
    var k, v := i + |xs.pre|, |Print(xs.value)|;
    WalkBlank(s, i, xs.pre, stack);
    WalkValue(s, k, xs.value, stack);
    WalkBlank(s, k + v, xs.post, stack);
    if xs.Item? {
      WalkFlat(s, k + v + |xs.post|, ",", stack);
      WalkItems(s, k + v + |xs.post| + 1, xs.rest, stack);
    }
  }

  lemma {:induction false} AtName(s: string, i: nat, n: Name)
    requires At(s, i, PrintName(n))
    ensures At(s, i, n.pre) && At(s, i + |n.pre|, "\"" + n.body + "\"") && At(s, i + |n.pre| + |n.body| + 2, n.left)
    ensures At(s, i + |n.pre| + |n.body| + 2 + |n.left|, ":") && At(s, i + |n.pre| + |n.body| + 3 + |n.left|, n.right)
    ensures |PrintName(n)| == |n.pre| + |n.body| + 3 + |n.left| + |n.right|
  {
    hide At;
    var q := "\"" + n.body + "\"";
    AtSplit(s, i, n.pre + q + n.left + ":", n.right);
    AtSplit(s, i, n.pre + q + n.left, ":");
    AtSplit(s, i, n.pre + q, n.left);
    AtSplit(s, i, n.pre, q);
  }

  lemma {:induction false} AtMember(s: string, i: nat, ms: Members)
    requires At(s, i, PrintMembers(ms))
    ensures var k, v := i + |PrintName(ms.name)|, |Print(ms.value)|;
            At(s, i, PrintName(ms.name)) && At(s, k, Print(ms.value)) && At(s, k + v, ms.post) &&
            (ms.Member? ==> At(s, k + v + |ms.post|, ",") && At(s, k + v + |ms.post| + 1, PrintMembers(ms.rest)))
    ensures |PrintMembers(ms)| == |PrintName(ms.name)| + |Print(ms.value)| + |ms.post| + if ms.Member? then
      1 + |PrintMembers(ms.rest)| else 0
  {
    hide At, Print, PrintName;
    var tail := if ms.Member? then "," + PrintMembers(ms.rest) else "";
    var k, v := PrintName(ms.name), Print(ms.value);
    AtSplit(s, i, k + v + ms.post, tail);
    AtSplit(s, i, k + v, ms.post);
    AtSplit(s, i, k, v);
    if ms.Member? {
      AtSplit(s, i + |k| + |v| + |ms.post|, ",", PrintMembers(ms.rest));
    }
  }

  lemma {:induction false} WalkName(s: string, i: nat, n: Name, stack: seq<char>)
    requires NameOk(n) && At(s, i, PrintName(n))
    ensures Walk(s, i, stack) == Walk(s, i + |PrintName(n)|, stack)
  {
    hide At, Walk, StringBody, Blank, PrintName;
    AtName(s, i, n);
    WalkBlank(s, i, n.pre, stack);
    WalkString(s, i + |n.pre|, n.body, stack);
    var c := i + |n.pre| + |n.body| + 2;
    WalkBlank(s, c, n.left, stack);
    WalkFlat(s, c + |n.left|, ":", stack);
    WalkBlank(s, c + |n.left| + 1, n.right, stack);
  }

  lemma {:induction false} WalkMembers(s: string, i: nat, ms: Members, stack: seq<char>)
    requires MembersOk(ms) && At(s, i, PrintMembers(ms)) && stack != [] && |stack| + MembersDepth(ms) <= MAX_DEPTH
    ensures Walk(s, i, stack) == Walk(s, i + |PrintMembers(ms)|, stack)
    decreases ms
  {
    hide At, Walk, PrintName, Print, NameOk, Blank, Ok, Depth;
    AtMember(s, i, ms);
    var k, v := i + |PrintName(ms.name)|, |Print(ms.value)|;
    WalkName(s, i, ms.name, stack);
    WalkValue(s, k, ms.value, stack);
    WalkBlank(s, k + v, ms.post, stack);
    if ms.Member? {
      WalkFlat(s, k + v + |ms.post|, ",", stack);
      WalkMembers(s, k + v + |ms.post| + 1, ms.rest, stack);
    }
  }

  lemma {:induction false} PrintHead(v: Json)
    requires Ok(v)
    ensures Print(v) != [] && !IsSpace(Print(v)[0])
  {
    hide StringBody;
    if IsScalar(v) {
      ScalarInert(v);
    }
  }

  predicate IsContainer(v: Json) { v.JEmpty? || v.JArray? || v.JObject? }

  /** A container nested too deep for the closers left makes the walk fail. */
  lemma {:induction false} WalkTooDeep(s: string, i: nat, v: Json, stack: seq<char>)
    requires Ok(v) && At(s, i, Print(v)) && IsContainer(v) && |stack| <= MAX_DEPTH < |stack| + Depth(v)
    ensures !Walk(s, i, stack).ok
    decreases v, 0
  {
    hide At, SkipString, Print, PrintItems, PrintMembers, StringBody, Blank, NameOk;
    AtContainer(s, i, v);
    if |stack| < MAX_DEPTH {
      match v {
        case JArray(items) => ItemsTooDeep(s, i + 1, items, stack + [']']);
        case JObject(ms) => MembersTooDeep(s, i + 1, ms, stack + ['}']);
        case _ =>
      }
    }
  }

  lemma {:induction false} AtContainer(s: string, i: nat, v: Json)
    requires At(s, i, Print(v)) && IsContainer(v)
    ensures i < |s| && s[i] == if v.JObject? || (v.JEmpty? && v.curly) then '{' else '['
    ensures v.JArray? ==> At(s, i + 1, PrintItems(v.items))
    ensures v.JObject? ==> At(s, i + 1, PrintMembers(v.members))
  {
    hide At, PrintItems, PrintMembers;
    var curly := v.JObject? || (v.JEmpty? && v.curly);
    var t := match v
             case JEmpty(_, gap) => gap
             case JArray(items) => PrintItems(items)
             case JObject(ms) => PrintMembers(ms)
             case _ => "";
    AtBracket(s, i, if curly then "{" else "[", t, if curly then "}" else "]");
  }

  lemma {:induction false} AtItem(s: string, i: nat, xs: Items)
    requires At(s, i, PrintItems(xs))
    ensures var k, v := i + |xs.pre|, |Print(xs.value)|;
            At(s, i, xs.pre) && At(s, k, Print(xs.value)) && At(s, k + v, xs.post) &&
            (xs.Item? ==> At(s, k + v + |xs.post|, ",") && At(s, k + v + |xs.post| + 1, PrintItems(xs.rest)))
    ensures |PrintItems(xs)| == |xs.pre| + |Print(xs.value)| + |xs.post| + if xs.Item? then 1 + |PrintItems(xs.rest)|
      else 0
  {
    hide At, Print;
    var tail, v := if xs.Item? then "," + PrintItems(xs.rest) else "", Print(xs.value);
    AtSplit(s, i, xs.pre + v + xs.post, tail);
    AtSplit(s, i, xs.pre + v, xs.post);
    AtSplit(s, i, xs.pre, v);
    if xs.Item? {
      AtSplit(s, i + |xs.pre| + |v| + |xs.post|, ",", PrintItems(xs.rest));
    }
  }

  lemma {:induction false} ItemsTooDeep(s: string, i: nat, xs: Items, stack: seq<char>)
    requires ItemsOk(xs) && At(s, i, PrintItems(xs)) && 0 < |stack| <= MAX_DEPTH < |stack| + ItemsDepth(xs)
    ensures !Walk(s, i, stack).ok
    decreases xs
  {
    hide At, Walk, Print, PrintItems, Ok, Blank;
    AtItem(s, i, xs);
    var k, v := i + |xs.pre|, |Print(xs.value)|;
    WalkBlank(s, i, xs.pre, stack);
    if |stack| + Depth(xs.value) > MAX_DEPTH {
      WalkTooDeep(s, k, xs.value, stack);
    } else {
      WalkValue(s, k, xs.value, stack);
      WalkBlank(s, k + v, xs.post, stack);
      WalkFlat(s, k + v + |xs.post|, ",", stack);
      ItemsTooDeep(s, k + v + |xs.post| + 1, xs.rest, stack);
    }
  }

  lemma {:induction false} MembersTooDeep(s: string, i: nat, ms: Members, stack: seq<char>)
    requires MembersOk(ms) && At(s, i, PrintMembers(ms)) && 0 < |stack| <= MAX_DEPTH < |stack| + MembersDepth(ms)
    ensures !Walk(s, i, stack).ok
    decreases ms
  {
    hide At, Walk, Print, PrintName, PrintMembers, Ok, Blank, NameOk;
    AtMember(s, i, ms);
    var k, v := i + |PrintName(ms.name)|, |Print(ms.value)|;
    WalkName(s, i, ms.name, stack);
    if |stack| + Depth(ms.value) > MAX_DEPTH {
      WalkTooDeep(s, k, ms.value, stack);
    } else {
      WalkValue(s, k, ms.value, stack);
      WalkBlank(s, k + v, ms.post, stack);
      WalkFlat(s, k + v + |ms.post|, ",", stack);
      MembersTooDeep(s, k + v + |ms.post| + 1, ms.rest, stack);
    }
  }

  /** skipJSONValue refuses every well-formed value nested deeper than 64. */
  lemma {:induction false} ValueTooDeep(s: string, i: nat, v: Json)
    requires Ok(v) && At(s, i, Print(v)) && Depth(v) > 64
    ensures !SkipValue(s, i).ok
  {
    hide At, Walk, Print, PrintItems, PrintMembers, StringBody, Ok;
    AtContainer(s, i, v);
    WalkTooDeep(s, i, v, []);
  }

  /** skipJSONValue stops exactly at the end of any value nested at most 64 deep. */
  lemma {:induction false} ValueEnds(s: string, i: nat, v: Json)
    requires Ok(v) && At(s, i, Print(v)) && Depth(v) <= 64
    requires IsScalar(v) && i + |Print(v)| < |s| ==> s[i + |Print(v)|] in ",}] \t\r\n"
    ensures SkipValue(s, i) == Skip(i + |Print(v)|, true)
  {
    hide At, Walk, ForwardString, StringBody;
    if IsScalar(v) {
      ScalarInert(v);
      ScalarEnds(s, i, Print(v));
      AtChar(s, i, Print(v), 0);
    } else {
      AtChar(s, i, Print(v), 0);
      if v.JString? {
        StringEnds(s, i, v.body);
      } else {
        WalkContainerText(s, i, v, []);
      }
    }
  }

  // ---------------------------------------------------------------- the envelope

  lemma {:induction false} BlankHead(t: string)
    requires Blank(t) && t != []
    ensures IsSpace(t[0])
  {
  }

  lemma {:induction false} BlankEnds(s: string, i: nat, t: string)
    requires Blank(t) && At(s, i, t) && (i + |t| < |s| ==> !IsSpace(s[i + |t|]))
    ensures SkipSpace(s, i) == i + |t|
    decreases |t|
  {
    hide At;
    if t != [] {
      AtChar(s, i, t, 0);
      AtTail(s, i, t, 1);
      BlankEnds(s, i + 1, t[1..]);
    }
  }

  /** Every escaped key decodes. */
  predicate Decodable(ms: Members, decode: KeyDecoder) {
    KeyField(ms.name.body, decode).Some? && (ms.Member? ==> Decodable(ms.rest, decode))
  }

  /** The decoder accepts every key with a backslash. */
  predicate KeysDecode(ms: Members, decode: KeyDecoder) {
    ('\\' in ms.name.body ==> decode("\"" + ms.name.body + "\"").Some?) && (ms.Member? ==> KeysDecode(ms.rest, decode))
  }

  lemma {:induction false} DecodableIs(ms: Members, decode: KeyDecoder)
    ensures Decodable(ms, decode) <==> KeysDecode(ms, decode)
    decreases ms
  {
    assert '\\' !in "model" && '\\' !in "stream" && '\\' !in "priority" && '\\' !in "user";
    if ms.Member? {
      DecodableIs(ms.rest, decode);
    }
  }

  /** The top-level members that select a field, in order, with the spans of their values. */
  function TopLevelHits(ms: Members, decode: KeyDecoder, i: nat): seq<Hit>
    requires Decodable(ms, decode)
  {
    var v := i + |PrintName(ms.name)|;
    var e := v + |Print(ms.value)|;
    var field := KeyField(ms.name.body, decode).value;
    (if field.Some? then [Hit(field.value, v, e)] else []) +
    (if ms.Member? then TopLevelHits(ms.rest, decode, e + |ms.post| + 1) else [])
  }

  /** Where the scanner finds the parts of a member's name and the start of its value. */
  lemma {:induction false} NameParts(s: string, i: nat, n: Name, value: Json)
    requires NameOk(n) && Ok(value) && At(s, i, PrintName(n)) && At(s, i + |PrintName(n)|, Print(value))
    ensures var q, c, x := i + |n.pre|, i + |n.pre| + |n.body| + 2 + |n.left|, i + |PrintName(n)|;
            && SkipSpace(s, i) == q < |s| && s[q] == '"' && SkipString(s, q) == Skip(q + |n.body| + 2, true)
            && SkipSpace(s, q + |n.body| + 2) == c < |s| && s[c] == ':' && SkipSpace(s, c + 1) == x <= |s|
            && s[q + 1..q + |n.body| + 1] == n.body
  {
    hide At, SkipSpace, SkipString, StringBody, Print, PrintName, Ok, Blank;
    AtName(s, i, n);
    var q, c, x := i + |n.pre|, i + |n.pre| + |n.body| + 2 + |n.left|, i + |PrintName(n)|;
    AtChar(s, q, "\"" + n.body + "\"", 0);
    AtChar(s, c, ":", 0);
    AtInside(s, q, n.body);
    BlankEnds(s, i, n.pre);
    StringEnds(s, q, n.body);
    BlankEnds(s, q + |n.body| + 2, n.left);
    PrintHead(value);
    AtChar(s, x, Print(value), 0);
    BlankEnds(s, c + 1, n.right);
  }

  /** Where the scanner finds the end of a member's value, when `close` follows. */
  lemma {:induction false} ValueParts(s: string, x: nat, value: Json, post: string, close: char)
    requires Ok(value) && Blank(post) && Depth(value) <= MAX_DEPTH && (close == ',' || close == '}')
    requires At(s, x, Print(value)) && At(s, x + |Print(value)|, post)
    requires var z := x + |Print(value)| + |post|; z < |s| && s[z] == close
    ensures x <= |s| && SkipValue(s, x) == Skip(x + |Print(value)|, true)
    ensures SkipSpace(s, x + |Print(value)|) == x + |Print(value)| + |post|
  {
    hide At, SkipSpace, SkipValue, Print, Ok, Blank, Depth;
    var e := x + |Print(value)|;
    if post != [] {
      AtChar(s, e, post, 0);
      BlankHead(post);
    }
    ValueEnds(s, x, value);
    BlankEnds(s, e, post);
  }

  ghost function HitsAfter(ms: Members, decode: KeyDecoder, i: nat, hits: seq<Hit>): seq<Hit>
    requires KeyField(ms.name.body, decode).Some?
  {
    var v := i + |PrintName(ms.name)|;
    var field := KeyField(ms.name.body, decode).value;
    if field.Some? then hits + [Hit(field.value, v, v + |Print(ms.value)|)] else hits
  }

  /** One round of the loop, from the positions of its parts: quote, end of key, colon, value, end of value, closer. */
  lemma {:induction false} ScanFromParts(s: string, decode: KeyDecoder, i: nat, hits: seq<Hit>, q: nat, k: nat, c: nat,
    x: nat, e: nat, z: nat)
    requires i <= |s| && SkipSpace(s, i) == q < |s| && s[q] == '"' && SkipString(s, q) == Skip(k, true)
      && q + 2 <= k <= |s|
    requires SkipSpace(s, k) == c < |s| && s[c] == ':' && SkipSpace(s, c + 1) == x <= |s|
    requires SkipValue(s, x) == Skip(e, true) && e <= |s| && SkipSpace(s, e) == z < |s| && (s[z] == ',' || s[z] == '}')
    requires KeyField(s[q + 1..k - 1], decode).Some?
    ensures var f := KeyField(s[q + 1..k - 1], decode).value;
            var all := if f.Some? then hits + [Hit(f.value, x, e)] else hits;
            ScanMember(s, decode, i, hits) == if s[z] == ',' then Next(z + 1, all)
              else Done(SkipSpace(s, z + 1) == |s|, all)
  {
    hide SkipSpace, SkipString, SkipValue, KeyField;
  }

  /** One round of the loop on a member that is followed by a comma or the closing brace. */
  lemma {:induction false} MemberScanned(s: string, decode: KeyDecoder, i: nat, ms: Members, close: char,
    hits: seq<Hit>)
    requires NameOk(ms.name) && Ok(ms.value) && Blank(ms.post) && Depth(ms.value) <= MAX_DEPTH
      && (close == ',' || close == '}')
    requires At(s, i, PrintName(ms.name)) && At(s, i + |PrintName(ms.name)|, Print(ms.value))
    requires At(s, i + |PrintName(ms.name)| + |Print(ms.value)|, ms.post)
    requires var z := i + |PrintName(ms.name)| + |Print(ms.value)| + |ms.post|; z < |s| && s[z] == close
    requires KeyField(ms.name.body, decode).Some?
    ensures var z := i + |PrintName(ms.name)| + |Print(ms.value)| + |ms.post|;
            ScanMember(s, decode, i, hits) ==
              if close == ',' then Next(z + 1, HitsAfter(ms, decode, i, hits))
              else Done(SkipSpace(s, z + 1) == |s|, HitsAfter(ms, decode, i, hits))
  {
    hide At, SkipSpace, SkipString, SkipValue, StringBody, Print, PrintName, KeyField, NameOk, Ok, Blank, Depth,
      ScanMember;
    var n, x := ms.name, i + |PrintName(ms.name)|;
    NameParts(s, i, n, ms.value);
    ValueParts(s, x, ms.value, ms.post, close);
    AtFits(s, i, PrintName(n));
    var q, e := i + |n.pre|, x + |Print(ms.value)|;
    ScanFromParts(s, decode, i, hits, q, q + |n.body| + 2, q + |n.body| + 2 + |n.left|, x, e, e + |ms.post|);
  }

  lemma {:induction false} AtFits(s: string, i: nat, t: string)
    requires At(s, i, t)
    ensures i + |t| <= |s|
  {
  }

  lemma {:induction false} HitsAppend(ms: Members, decode: KeyDecoder, i: nat, hits: seq<Hit>)
    requires Decodable(ms, decode)
    ensures hits + TopLevelHits(ms, decode, i) ==
            HitsAfter(ms, decode, i, hits) +
            if ms.Member? then TopLevelHits(ms.rest, decode,
              i + |PrintName(ms.name)| + |Print(ms.value)| + |ms.post| + 1) else []
  {
    hide KeyField, Print, PrintName;
  }

  lemma {:induction false} MembersScanned(s: string, decode: KeyDecoder, i: nat, ms: Members, trail: string,
    hits: seq<Hit>)
    requires MembersOk(ms) && MembersDepth(ms) <= MAX_DEPTH && Decodable(ms, decode) && Blank(trail)
    requires At(s, i, PrintMembers(ms)) && At(s, i + |PrintMembers(ms)|, "}")
      && At(s, i + |PrintMembers(ms)| + 1, trail)
    requires i + |PrintMembers(ms)| + 1 + |trail| == |s|
    ensures ScanMembers(s, decode, i, hits) == Envelope(true, hits + TopLevelHits(ms, decode, i))
    decreases ms
  {
    hide At, Print, PrintName, KeyField, NameOk, Ok, Blank, Depth, ScanMember, TopLevelHits, HitsAfter, SkipSpace;
    AtMember(s, i, ms);
    AtChar(s, i + |PrintMembers(ms)|, "}", 0);
    HitsAppend(ms, decode, i, hits);
    var z := i + |PrintName(ms.name)| + |Print(ms.value)| + |ms.post|;
    if ms.Member? {
      AtChar(s, z, ",", 0);
      MemberScanned(s, decode, i, ms, ',', hits);
      MembersScanned(s, decode, z + 1, ms.rest, trail, HitsAfter(ms, decode, i, hits));
    } else {
      MemberScanned(s, decode, i, ms, '}', hits);
      BlankEnds(s, z + 1, trail);
    }
  }

  lemma {:induction false} MemberRefused(s: string, decode: KeyDecoder, i: nat, ms: Members, hits: seq<Hit>)
    requires NameOk(ms.name) && Ok(ms.value) && i <= |s|
    requires Depth(ms.value) > MAX_DEPTH || KeyField(ms.name.body, decode).None?
    requires At(s, i, PrintName(ms.name)) && At(s, i + |PrintName(ms.name)|, Print(ms.value))
    ensures ScanMember(s, decode, i, hits).Done? && !ScanMember(s, decode, i, hits).ok
  {
    hide At, Print, PrintName, KeyField, NameOk, Ok, Depth, SkipSpace, SkipString, SkipValue, StringBody;
    NameParts(s, i, ms.name, ms.value);
    if Depth(ms.value) > MAX_DEPTH {
      ValueTooDeep(s, i + |PrintName(ms.name)|, ms.value);
    }
  }

  /** A member value nested deeper than 64, or a key that does not decode, makes the scan fail. */
  lemma {:induction false} MembersRefused(s: string, decode: KeyDecoder, i: nat, ms: Members, hits: seq<Hit>)
    requires MembersOk(ms) && (MembersDepth(ms) > MAX_DEPTH || !Decodable(ms, decode))
    requires At(s, i, PrintMembers(ms)) && i <= |s|
    ensures !ScanMembers(s, decode, i, hits).ok
    decreases ms
  {
    hide At, Print, PrintName, PrintMembers, KeyField, NameOk, Ok, Blank, Depth, HitsAfter, ScanMember, SkipSpace;
    AtMember(s, i, ms);
    if Depth(ms.value) > MAX_DEPTH || KeyField(ms.name.body, decode).None? {
      MemberRefused(s, decode, i, ms, hits);
    } else {
      var z := i + |PrintName(ms.name)| + |Print(ms.value)| + |ms.post|;
      AtChar(s, z, ",", 0);
      MemberScanned(s, decode, i, ms, ',', hits);
      MembersRefused(s, decode, z + 1, ms.rest, HitsAfter(ms, decode, i, hits));
    }
  }

  predicate DocumentOk(d: Document) {
    Blank(d.lead) && Blank(d.trail) && (if d.Document? then MembersOk(d.members) else Blank(d.gap))
  }

  /**
   scanRequestMeta accepts an object text exactly when its member values nest at most 64 levels and its escaped
   keys decode, and then decodes exactly the top-level members that select a field, in order.
   */
  lemma {:induction false} EnvelopeScanned(d: Document, decode: KeyDecoder)
    requires DocumentOk(d)
    ensures var r := ScanEnvelope(PrintDocument(d), decode);
            && (r.ok <==> (d.Document? ==> MembersDepth(d.members) <= 64 && KeysDecode(d.members, decode)))
            && (r.ok && d.EmptyDocument? ==> r.hits == [])
            && (r.ok && d.Document? ==>
                  Decodable(d.members, decode) && r.hits == TopLevelHits(d.members, decode, |d.lead| + 1))
  {
    hide At, PrintMembers, ScanMember, KeyField, TopLevelHits, KeysDecode;
    if d.Document? {
      DecodableIs(d.members, decode);
    }
    var s := PrintDocument(d);
    var body := if d.Document? then PrintMembers(d.members) else d.gap;
    DocumentParts(d.lead, body, d.trail, s);
    BlankEnds(s, 0, d.lead);
    if d.EmptyDocument? {
      ClosingBraceScanned(s, decode, |d.lead| + 1, d.gap, d.trail, []);
    } else if MembersDepth(d.members) <= MAX_DEPTH && Decodable(d.members, decode) {
      MembersScanned(s, decode, |d.lead| + 1, d.members, d.trail, []);
      assert [] + TopLevelHits(d.members, decode, |d.lead| + 1) == TopLevelHits(d.members, decode, |d.lead| + 1);
    } else {
      MembersRefused(s, decode, |d.lead| + 1, d.members, []);
    }
  }

  /** The loop ends at the closing brace. */
  lemma {:induction false} ClosingBraceScanned(s: string, decode: KeyDecoder, i: nat, gap: string, trail: string,
    hits: seq<Hit>)
    requires Blank(gap) && Blank(trail) && At(s, i, gap) && At(s, i + |gap|, "}") && At(s, i + |gap| + 1, trail)
    requires i + |gap| + 1 + |trail| == |s|
    ensures ScanMembers(s, decode, i, hits) == Envelope(true, hits)
  {
    hide At, Blank, SkipValue, SkipString, KeyField;
    AtChar(s, i + |gap|, "}", 0);
    BlankEnds(s, i, gap);
    BlankEnds(s, i + |gap| + 1, trail);
  }

  lemma {:induction false} DocumentParts(lead: string, body: string, trail: string, s: string)
    requires s == lead + "{" + body + "}" + trail
    ensures At(s, 0, lead) && |lead| < |s| && s[|lead|] == '{' && At(s, |lead| + 1, body)
    ensures var z := |lead| + 1 + |body|; At(s, z, "}") && z < |s| && s[z] == '}' && At(s, z + 1, trail)
    ensures |s| == |lead| + |body| + |trail| + 2
  {
    hide At;
    AtText(s, 0, lead + "{" + body + "}" + trail);
    assert s[0..|s|] == s;
    AtSplit(s, 0, lead + "{" + body + "}", trail);
    AtSplit(s, 0, lead + "{" + body, "}");
    AtSplit(s, 0, lead + "{", body);
    AtSplit(s, 0, lead, "{");
    AtChar(s, |lead|, "{", 0);
    AtChar(s, |lead| + 1 + |body|, "}", 0);
  }

  lemma {:induction false} HitAt(ms: Members, decode: KeyDecoder, i: nat, k: nat)
    requires Decodable(ms, decode) && k < |TopLevelHits(ms, decode, i)|
    ensures var own := KeyField(ms.name.body, decode).value;
            var v := i + |PrintName(ms.name)|;
            var h := TopLevelHits(ms, decode, i)[k];
            if own.Some? && k == 0 then h == Hit(own.value, v, v + |Print(ms.value)|)
            else ms.Member? && var j := if own.Some? then k - 1 else k;
                 var rest := TopLevelHits(ms.rest, decode, v + |Print(ms.value)| + |ms.post| + 1);
                 0 <= j < |rest| && h == rest[j]
  {
    hide KeyField, Print, PrintName;
  }

  /** Each decoded span is the printed value of a top-level member. */
  lemma {:induction false} HitsArePrintedValues(s: string, decode: KeyDecoder, i: nat, ms: Members, k: nat)
    requires Decodable(ms, decode) && At(s, i, PrintMembers(ms)) && k < |TopLevelHits(ms, decode, i)|
    ensures var h := TopLevelHits(ms, decode, i)[k];
            h.start <= h.end <= |s| && exists v: Json ::
              s[h.start..h.end] == Print(v) && IsTopLevelValue(ms, decode, h.field, v)
    decreases ms
  {
    hide At, KeyField, Print, PrintName, PrintMembers, TopLevelHits;
    AtMember(s, i, ms);
    HitAt(ms, decode, i, k);
    var own := KeyField(ms.name.body, decode).value.Some?;
    var h := TopLevelHits(ms, decode, i)[k];
    if own && k == 0 {
      AtText(s, i + |PrintName(ms.name)|, Print(ms.value));
      assert IsTopLevelValue(ms, decode, h.field, ms.value);
    } else {
      HitsArePrintedValues(s, decode, i + |PrintName(ms.name)| + |Print(ms.value)| + |ms.post| + 1, ms.rest,
        if own then k - 1 else k);
      var v: Json :| s[h.start..h.end] == Print(v) && IsTopLevelValue(ms.rest, decode, h.field, v);
      assert IsTopLevelValue(ms, decode, h.field, v);
    }
  }

  ghost predicate IsTopLevelValue(ms: Members, decode: KeyDecoder, f: Field, v: Json) {
    (KeyField(ms.name.body, decode) == Some(Some(f)) && ms.value == v)
      || (ms.Member? && IsTopLevelValue(ms.rest, decode, f, v))
  }

  /** The scanner is deliberately lenient: after the last member it accepts a comma, which the grammar forbids. */
  lemma {:induction false} TrailingCommaAccepted(m: Members, decode: KeyDecoder)
    requires m.LastMember? && MembersOk(m) && MembersDepth(m) <= MAX_DEPTH && Decodable(m, decode)
    ensures ScanEnvelope("{" + (PrintMembers(m) + ",") + "}", decode) == Envelope(true, TopLevelHits(m, decode, 1))
  {
    hide At, Print, PrintName, KeyField, NameOk, Ok, Blank, Depth, ScanMember, TopLevelHits, HitsAfter, SkipSpace,
      PrintMembers;
    var body := PrintMembers(m) + ",";
    var s := "" + "{" + body + "}" + "";
    assert s == "{" + body + "}";
    DocumentParts("", body, "", s);
    AtSplit(s, 1, PrintMembers(m), ",");
    AtMember(s, 1, m);
    BlankNothing();
    BlankEnds(s, 0, "");
    var z := 1 + |PrintMembers(m)|;
    AtChar(s, z, ",", 0);
    AtText(s, z + 1, "");
    AtText(s, z + 2, "");
    MemberScanned(s, decode, 1, m, ',', []);
    ClosingBraceScanned(s, decode, z + 1, "", "", HitsAfter(m, decode, 1, []));
    HitsAppend(m, decode, 1, []);
    assert [] + TopLevelHits(m, decode, 1) == TopLevelHits(m, decode, 1);
  }

  lemma {:induction false} BlankNothing()
    ensures Blank("")
  {
  }
}
