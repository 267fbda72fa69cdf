/**
  * One choice of the outside primitives that meets every law assumed of them. Nothing here is
  * secret or hard to invert; it shows that the laws do not contradict each other.
  */
module AuthExample {
  import opened Wrappers
  import opened Models
  import opened AuthModel

  datatype Read<T> = Read(value: T, rest: string)

  // ---------- strings, one after the other ----------

  function Write(s: string): string {
    if s == "" then ";" else ['+', s[0]] + Write(s[1..])
  }

  function ReadText(t: string): (r: Option<Read<string>>)
    ensures r.Some? ==> |r.value.rest| < |t|
  {
    if t == "" then None
    else if t[0] == ';' then Some(Read("", t[1..]))
    else if t[0] != '+' || |t| < 2 then None
    else
      match ReadText(t[2..])
      case None => None
      case Some(tail) => Some(Read([t[1]] + tail.value, tail.rest))
  }

  lemma {:induction false} ReadWritten(s: string, rest: string)
    ensures ReadText(Write(s) + rest) == Some(Read(s, rest))
  {
    var t := Write(s) + rest;
    if s == "" {
      assert t[1..] == rest;
    } else {
      ReadWritten(s[1..], rest);
      assert t[2..] == Write(s[1..]) + rest;
      assert [s[0]] + s[1..] == s;
    }
  }

  // ---------- claims ----------

  function Ones(n: nat): (s: string)
    ensures |s| == n
  {
    seq(n, _ => '1')
  }

  function WriteJson(v: Json): string {
    match v
    case Text(text) => "t" + Write(text)
    case Number(n) => "n" + Write(Ones(n))
  }

  function ReadJson(t: string): (r: Option<Read<Json>>)
    ensures r.Some? ==> |r.value.rest| < |t|
  {
    if t == "" || (t[0] != 't' && t[0] != 'n') then None
    else
      match ReadText(t[1..])
      case None => None
      case Some(text) => Some(Read(if t[0] == 't' then Text(text.value) else Number(|text.value|), text.rest))
  }

  lemma ReadJsonWritten(v: Json, rest: string)
    ensures ReadJson(WriteJson(v) + rest) == Some(Read(v, rest))
  {
    hide Write, ReadText;
    var text := if v.Text? then v.text else Ones(v.n);
    var t := WriteJson(v) + rest;
    ReadWritten(text, rest);
    assert t[0] == (if v.Text? then 't' else 'n') && t[1..] == Write(text) + rest;
  }

  ghost function WriteClaims(c: Payload): string
    decreases |c|
  {
    if c == map[] then "."
    else
      var key :| key in c;
      "," + Write(key) + WriteJson(c[key]) + WriteClaims(c - {key})
  }

  function ReadClaims(t: string): Option<Read<Payload>>
    decreases |t|
  {
    if t == "" then None
    else if t[0] == '.' then Some(Read(map[], t[1..]))
    else
      match ReadText(t[1..])
      case None => None
      case Some(key) =>
        match ReadJson(key.rest)
        case None => None
        case Some(v) =>
          match ReadClaims(v.rest)
          case None => None
          case Some(others) => Some(Read(others.value[key.value := v.value], others.rest))
  }

  lemma ReadOneClaim(key: string, v: Json, tail: string, others: Payload)
    requires ReadClaims(tail) == Some(Read(others, ""))
    ensures ReadClaims("," + Write(key) + WriteJson(v) + tail) == Some(Read(others[key := v], ""))
  {
    hide Write, ReadText, WriteJson, ReadJson;
    var t := "," + Write(key) + WriteJson(v) + tail;
    ReadJsonWritten(v, tail);
    ReadWritten(key, WriteJson(v) + tail);
    assert t[0] == ',' && t[1..] == Write(key) + (WriteJson(v) + tail);
  }

  lemma {:induction false} ReadClaimsWritten(c: Payload)
    ensures ReadClaims(WriteClaims(c)) == Some(Read(c, ""))
    decreases |c|
  {
    if c != map[] {
      var key := NextClaim(c);
      hide ReadClaims, Write, WriteJson, WriteClaims;
      ReadClaimsWritten(c - {key});
      ReadOneClaim(key, c[key], WriteClaims(c - {key}), c - {key});
      assert (c - {key})[key := c[key]] == c;
    }
  }

  lemma NextClaim(c: Payload) returns (key: string)
    requires c != map[]
    ensures key in c && WriteClaims(c) == "," + Write(key) + WriteJson(c[key]) + WriteClaims(c - {key})
  {
    hide Write, WriteJson;
    key :| key in c && WriteClaims(c) == "," + Write(key) + WriteJson(c[key]) + WriteClaims(c - {key});
  }

  // ---------- tokens ----------

  ghost function Encode(h: Header, c: Payload, key: string): string {
    "." + Write(h.kid.GetOr("")) + (if h.kid.Some? then "+" else "-") + Write(key) + WriteClaims(c)
  }

  datatype Token = Token(header: Header, key: string, claims: Payload)

  function Parse(t: string): (r: Option<Token>)
    ensures r.Some? ==> '.' in t
  {
    if t == "" || t[0] != '.' then None
    else
      match ReadText(t[1..])
      case None => None
      case Some(kid) =>
        if kid.rest == "" then None
        else
          match ReadText(kid.rest[1..])
          case None => None
          case Some(key) =>
            match ReadClaims(key.rest)
            case None => None
            case Some(c) =>
              Some(Token(Header(if kid.rest[0] == '+' then Some(kid.value) else None), key.value, c.value))
  }

  lemma ParseEncoded(h: Header, c: Payload, key: string)
    ensures Parse(Encode(h, c, key)) == Some(Token(h, key, c))
    ensures !(API_TOKEN_PREFIX <= Encode(h, c, key))
  {
    hide Write, ReadText, WriteClaims, ReadClaims;
    var kid, sign, body := h.kid.GetOr(""), if h.kid.Some? then "+" else "-", Write(key) + WriteClaims(c);
    var t := Encode(h, c, key);
    ReadClaimsWritten(c);
    ReadWritten(key, WriteClaims(c));
    ReadWritten(kid, sign + body);
    assert t[0] == '.' && t[1..] == Write(kid) + (sign + body);
    assert (sign + body)[1..] == body && (sign + body)[0] == sign[0];
    assert API_TOKEN_PREFIX[0] == 'w';
  }

  ghost function Example(): Primitives {
    Primitives(
      (password, _)  => Some("#" + password),
      (password, hash) => hash == "#" + password,
      token => token,
      (id: Id) => Ones(id),
      text => Some(|text|),
      pem => Some(RsaPublic(pem, "")),
      pem => Some(RsaPublic(pem, "")),
      material => true,
      (h, c, key) => Encode(h, c, key),
      token => if Parse(token).Some? then Some(Parse(token).value.header) else None,
      (token, material) =>
        if Parse(token).Some? && RsaPublic(Parse(token).value.key, "") == material
        then Some(Parse(token).value.claims) else None)
  }

  /** The laws can be met, with any one text as both halves of a key pair. */
  lemma LawsCanBeMet(config: Config)
    requires config.publicKeyPem == config.privateKeyPem
    ensures Lawful(Example()) && ValidKeys(Example(), config)
    ensures Example().hashPassword(config.adminPassword, "").Some?
  {
    var p := Example();
    forall h, c, key
      ensures p.decodeHeader(p.encode(h, c, key)) == Some(h)
      ensures p.decode(p.encode(h, c, key), RsaPublic(key, "")) == Some(c)
      ensures forall pub :: p.decode(p.encode(h, c, key), pub).Some? ==> p.decode(p.encode(h, c, key), pub).value == c
      ensures !(API_TOKEN_PREFIX <= p.encode(h, c, key))
    {
      ParseEncoded(h, c, key);
    }
  }
}
