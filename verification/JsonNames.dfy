/** Which members of a document are decoded into which field, and what every accepted text looks like. */
module JsonNames {
  import opened Options
  import opened JsonScan
  import opened JsonGrammar

  // ---------------------------------------------------------------- the four names

  /** The key is written as `name`, or has an escape and decodes to it. */
  predicate Spells(raw: string, decode: KeyDecoder, name: string) {
    raw == name || ('\\' in raw && decode("\"" + raw + "\"") == Some(name))
  }

  /** The spans of the values of the top-level members with key `name`, in order, if the members start at `i`. */
  function Spans(ms: Members, decode: KeyDecoder, i: nat, name: string): seq<(nat, nat)> {
    var v := i + |PrintName(ms.name)|;
    var e := v + |Print(ms.value)|;
    (if Spells(ms.name.body, decode, name) then [(v, e)] else []) +
    (if ms.Member? then Spans(ms.rest, decode, e + |ms.post| + 1, name) else [])
  }

  /** The spans decoded into one field, in order. */
  function Decoded(hits: seq<Hit>, f: Field): seq<(nat, nat)> {
    if hits == [] then []
    else (if hits[0].field == f then [(hits[0].start, hits[0].end)] else []) + Decoded(hits[1..], f)
  }

  lemma {:induction false} DecodedConcat(a: seq<Hit>, b: seq<Hit>, f: Field)
    ensures Decoded(a + b, f) == Decoded(a, f) + Decoded(b, f)
  {
    if a == [] {
      assert a + b == b;
    } else {
      assert (a + b)[1..] == a[1..] + b;
      DecodedConcat(a[1..], b, f);
    }
  }

  ghost predicate FieldsRight(ms: Members, decode: KeyDecoder, i: nat, hits: seq<Hit>) {
    && Decoded(hits, Model) == Spans(ms, decode, i, "model") && Decoded(hits, Stream) == Spans(ms, decode, i, "stream")
    && Decoded(hits, Priority) == Spans(ms, decode, i, "priority")
      && Decoded(hits, User) == Spans(ms, decode, i, "user")
  }

  lemma {:induction false} OneName(raw: string, decode: KeyDecoder)
    requires KeyField(raw, decode).Some?
    ensures var f := KeyField(raw, decode).value;
            && (f == Some(Model) <==> Spells(raw, decode, "model"))
              && (f == Some(Stream) <==> Spells(raw, decode, "stream"))
            && (f == Some(Priority) <==> Spells(raw, decode, "priority"))
              && (f == Some(User) <==> Spells(raw, decode, "user"))
  {
    assert '\\' !in "model" && '\\' !in "stream" && '\\' !in "priority" && '\\' !in "user";
    assert |"model"| == 5 && |"stream"| == 6 && |"priority"| == 8 && |"user"| == 4;
  }

  predicate Named(f: Field, name: string) {
    (f, name) in [(Model, "model"), (Stream, "stream"), (Priority, "priority"), (User, "user")]
  }

  lemma {:induction false} NamedIs(raw: string, decode: KeyDecoder, f: Field, name: string)
    requires Named(f, name) && KeyField(raw, decode).Some?
    ensures KeyField(raw, decode).value == Some(f) <==> Spells(raw, decode, name)
  {
    hide KeyField, Spells;
    OneName(raw, decode);
  }

  lemma {:induction false} HitsOfField(ms: Members, decode: KeyDecoder, i: nat, f: Field, name: string)
    requires Named(f, name) && Decodable(ms, decode)
    ensures Decoded(TopLevelHits(ms, decode, i), f) == Spans(ms, decode, i, name)
    decreases ms
  {
    hide KeyField, Spells, Print, PrintName, Named, TopLevelHits, Spans, Decoded;
    NamedIs(ms.name.body, decode, f, name);
    HitsUnfold(ms, decode, i);
    SpansUnfold(ms, decode, i, name);
    if ms.Member? {
      HitsOfField(ms.rest, decode, Rest(ms, i), f, name);
    }
    var own := Own(ms, decode, i);
    DecodedConcat(own, if ms.Member? then TopLevelHits(ms.rest, decode, Rest(ms, i)) else [], f);
    DecodedOwn(own, f);
    DecodedOwn([], f);
  }

  /** Where the members after the first start. */
  function Rest(ms: Members, i: nat): nat { i + |PrintName(ms.name)| + |Print(ms.value)| + |ms.post| + 1 }

  /** What the first member adds. */
  function Own(ms: Members, decode: KeyDecoder, i: nat): seq<Hit>
    requires KeyField(ms.name.body, decode).Some?
  {
    var f, v := KeyField(ms.name.body, decode).value, i + |PrintName(ms.name)|;
    if f.Some? then [Hit(f.value, v, v + |Print(ms.value)|)] else []
  }

  lemma {:induction false} HitsUnfold(ms: Members, decode: KeyDecoder, i: nat)
    requires Decodable(ms, decode)
    ensures TopLevelHits(ms, decode, i) ==
            Own(ms, decode, i) + if ms.Member? then TopLevelHits(ms.rest, decode, Rest(ms, i)) else []
  {
    hide KeyField, Print, PrintName;
  }

  lemma {:induction false} SpansUnfold(ms: Members, decode: KeyDecoder, i: nat, name: string)
    ensures var v := i + |PrintName(ms.name)|;
            Spans(ms, decode, i, name) ==
            (if Spells(ms.name.body, decode, name) then [(v, v + |Print(ms.value)|)] else []) +
            if ms.Member? then Spans(ms.rest, decode, Rest(ms, i), name) else []
  {
    hide Spells, Print, PrintName;
  }

  lemma {:induction false} DecodedOwn(own: seq<Hit>, f: Field)
    requires |own| <= 1
    ensures Decoded(own, f) == if own != [] && own[0].field == f then [(own[0].start, own[0].end)] else []
  {
    if own != [] {
      assert own[1..] == [];
    }
  }

  lemma {:induction false} HitsByName(ms: Members, decode: KeyDecoder, i: nat)
    requires Decodable(ms, decode)
    ensures FieldsRight(ms, decode, i, TopLevelHits(ms, decode, i))
  {
    hide TopLevelHits, Spans, Decoded, Decodable;
    HitsOfField(ms, decode, i, Model, "model");
    HitsOfField(ms, decode, i, Stream, "stream");
    HitsOfField(ms, decode, i, Priority, "priority");
    HitsOfField(ms, decode, i, User, "user");
  }

  /** The spans come in the order of the text. */
  ghost predicate InTextOrder(hits: seq<Hit>, i: nat) {
    && (forall k :: 0 <= k < |hits| ==> i <= hits[k].start <= hits[k].end)
    && (forall k :: 0 < k < |hits| ==> hits[k - 1].end < hits[k].start)
  }

  lemma {:induction false} HitsInOrder(ms: Members, decode: KeyDecoder, i: nat)
    requires Decodable(ms, decode)
    ensures InTextOrder(TopLevelHits(ms, decode, i), i)
    decreases ms
  {
    hide KeyField, Print, PrintName, TopLevelHits;
    HitsUnfold(ms, decode, i);
    if ms.Member? {
      HitsInOrder(ms.rest, decode, Rest(ms, i));
    }
  }

  /**
   The record gets, for "model", "stream", "priority" and "user", exactly the values of the top-level members of that
   name, in the order of the text, and nothing else is decoded.
   */
  lemma {:induction false} EnvelopeFields(d: Document, decode: KeyDecoder)
    requires DocumentOk(d) && d.Document? && MembersDepth(d.members) <= 64 && KeysDecode(d.members, decode)
    ensures var r := ScanEnvelope(PrintDocument(d), decode);
            && r.ok && FieldsRight(d.members, decode, |d.lead| + 1, r.hits) && InTextOrder(r.hits, |d.lead| + 1)
  {
    hide ScanEnvelope, TopLevelHits, KeysDecode, Decodable;
    EnvelopeScanned(d, decode);
    HitsByName(d.members, decode, |d.lead| + 1);
    HitsInOrder(d.members, decode, |d.lead| + 1);
  }

  // ---------------------------------------------------------------- every accepted text

  /** Where the parts of a member stand: opening quote, end of key, colon, value, end of value, comma or brace. */
  datatype Parts = Parts(q: nat, k: nat, c: nat, x: nat, e: nat, z: nat)

  predicate PartsAt(s: string, i: nat, m: Parts) {
    && i <= m.q < m.k <= m.c < m.x <= m.e <= m.z < |s|
    && Blank(s[i..m.q]) && s[m.q] == '"' && SkipString(s, m.q) == Skip(m.k, true)
    && Blank(s[m.k..m.c]) && s[m.c] == ':' && Blank(s[m.c + 1..m.x])
    && SkipValue(s, m.x) == Skip(m.e, true) && Blank(s[m.e..m.z]) && (s[m.z] == ',' || s[m.z] == '}')
  }

  predicate Closes(s: string, i: nat, z: nat) {
    i <= z < |s| && Blank(s[i..z]) && s[z] == '}' && Blank(s[z + 1..])
  }

  /** Members, each with a string, a colon and a value and followed by a comma, up to a brace and blanks. */
  ghost predicate Form(s: string, i: nat)
    requires i <= |s|
    decreases |s| - i
  {
    || (exists z: nat :: Closes(s, i, z))
    || (exists m: Parts :: PartsAt(s, i, m) && if s[m.z] == ',' then Form(s, m.z + 1) else Blank(s[m.z + 1..]))
  }

  lemma {:induction false} SpaceIsBlank(s: string, i: nat)
    requires i <= |s|
    ensures Blank(s[i..SkipSpace(s, i)])
  {
  }

  /** A round of the loop that goes on or accepts has seen all parts of a member, or the closing brace. */
  lemma {:induction false} MemberForm(s: string, decode: KeyDecoder, i: nat, hits: seq<Hit>) returns (m: Parts)
    requires i <= |s|
    requires var r := ScanMember(s, decode, i, hits); var q := SkipSpace(s, i);
             q < |s| && s[q] != '}' && (r.Next? || r.ok)
    ensures PartsAt(s, i, m)
    ensures var r := ScanMember(s, decode, i, hits);
            if r.Next? then s[m.z] == ',' && r.i == m.z + 1 else s[m.z] == '}' && SkipSpace(s, m.z + 1) == |s|
  {
    hide SkipSpace, SkipString, SkipValue, KeyField, Blank;
    var q := SkipSpace(s, i);
    SkipBounds(s, q);
    StringStart(s, q);
    var k := SkipString(s, q).end;
    var c := SkipSpace(s, k);
    var x := SkipSpace(s, c + 1);
    SkipBounds(s, x);
    var e := SkipValue(s, x).end;
    SpaceIsBlank(s, i);
    SpaceIsBlank(s, k);
    SpaceIsBlank(s, c + 1);
    SpaceIsBlank(s, e);
    m := Parts(q, k, c, x, e, SkipSpace(s, e));
  }

  lemma {:induction false} ToTheEnd(s: string, i: nat)
    requires i <= |s| && SkipSpace(s, i) == |s|
    ensures Blank(s[i..])
  {
    SpaceIsBlank(s, i);
    assert s[i..|s|] == s[i..];
  }

  lemma {:induction false} AcceptedMembers(s: string, decode: KeyDecoder, i: nat, hits: seq<Hit>)
    requires i <= |s| && ScanMembers(s, decode, i, hits).ok
    ensures Form(s, i)
    decreases |s| - i
  {
    hide ScanMember, SkipSpace, Blank, PartsAt;
    var r, q := ScanMember(s, decode, i, hits), SkipSpace(s, i);
    if q == |s| || s[q] == '}' {
      BraceForm(s, decode, i, hits);
    } else {
      var m := MemberForm(s, decode, i, hits);
      PartsFit(s, i, m);
      if r.Next? {
        AcceptedMembers(s, decode, r.i, r.hits);
      } else {
        ToTheEnd(s, m.z + 1);
      }
    }
  }

  lemma {:induction false} PartsFit(s: string, i: nat, m: Parts)
    requires PartsAt(s, i, m)
    ensures i <= m.z < |s|
  {
  }

  lemma {:induction false} BraceForm(s: string, decode: KeyDecoder, i: nat, hits: seq<Hit>)
    requires i <= |s| && (SkipSpace(s, i) == |s| || s[SkipSpace(s, i)] == '}')
    requires var r := ScanMember(s, decode, i, hits); r.Next? || r.ok
    ensures ScanMember(s, decode, i, hits).Done? && Closes(s, i, SkipSpace(s, i))
  {
    hide SkipSpace, SkipString, SkipValue, KeyField, Blank;
    SpaceIsBlank(s, i);
    ToTheEnd(s, SkipSpace(s, i) + 1);
  }

  lemma {:induction false} StringStart(s: string, q: nat)
    requires SkipString(s, q).ok
    ensures q < |s| && s[q] == '"'
  {
  }

  /** Whatever is accepted is an opening brace, members and a closing brace, with nothing but blanks around. */
  lemma {:induction false} AcceptedHasForm(s: string, decode: KeyDecoder)
    requires ScanEnvelope(s, decode).ok
    ensures exists o: nat :: o < |s| && Blank(s[..o]) && s[o] == '{' && Form(s, o + 1)
  {
    hide SkipSpace, ScanMembers, Form, Blank;
    var o := SkipSpace(s, 0);
    SpaceIsBlank(s, 0);
    assert s[0..o] == s[..o];
    AcceptedMembers(s, decode, o + 1, []);
  }

  // ---------------------------------------------------------------- brackets

  /** An array closed by a brace, or an object closed by a bracket, is refused. */
  lemma {:induction false} WrongCloserRefused(s: string, i: nat, v: Json, t: string)
    requires Ok(v) && Depth(v) <= 64 && (v.JArray? || v.JObject?)
    requires t == if v.JArray? then PrintItems(v.items) else PrintMembers(v.members)
    requires At(s, i, (if v.JArray? then "[" else "{") + t + (if v.JArray? then "}" else "]"))
    ensures !SkipValue(s, i).ok
  {
    hide At, Walk, Print, PrintItems, PrintMembers;
    AtBracket(s, i, if v.JArray? then "[" else "{", t, if v.JArray? then "}" else "]");
    var inner := [if v.JArray? then ']' else '}'];
    if v.JArray? {
      WalkItems(s, i + 1, v.items, inner);
    } else {
      WalkMembers(s, i + 1, v.members, inner);
    }
    WalkOpens(s, i);
    WalkMismatch(s, i + 1 + |t|, inner);
  }

  lemma {:induction false} WalkOpens(s: string, i: nat)
    requires i < |s| && (s[i] == '[' || s[i] == '{')
    ensures SkipValue(s, i) == Walk(s, i + 1, [if s[i] == '[' then ']' else '}'])
  {
    assert [] + [if s[i] == '{' then '}' else ']'] == [if s[i] == '[' then ']' else '}'];
  }

  lemma {:induction false} WalkMismatch(s: string, i: nat, stack: seq<char>)
    requires i < |s| && |stack| == 1 && (s[i] == '}' || s[i] == ']') && s[i] != stack[0]
    ensures !Walk(s, i, stack).ok
  {
  }
}
