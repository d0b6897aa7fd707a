/**
 The transformer and the decoder commute: decoding a rewritten envelope gives the event of the
 original one with its row images renamed, provided the LSN and timestamp survive a double.
 */
module Commute {
  import opened Wrappers
  import opened JsonValues
  import opened Writer
  import opened Decoder
  import opened Mapper

  function SourceOf(envelope: Wire): Json {
    if envelope.Text? then Member(Member(envelope.json, "payload"), "source") else Null
  }

  /** A numeric member whose token is printed back unchanged. */
  predicate Prints(canon: string -> string, j: Json) {
    j.Num? ==> canon(j.token) == j.token
  }

  /** The rule the mapper selects for an envelope, if it rewrites it at all. */
  function Selected(
      rules: Rules, canon: string -> string, topic: string, envelope: Wire, orders: Orders): Option<Rule>
  {
    if envelope.Text? && Member(envelope.json, "payload").Obj? then
      LookupForPayload(rules, orders.rules, NormalFields(canon, Member(envelope.json, "payload").fields), topic)
    else None
  }

  function RenamedRow(row: Option<Fields>, rule: Rule, order: seq<string>): Option<Fields> {
    if row.Some? then Some(Renamed(row.value, rule.fields, order)) else None
  }

  /** The event with its row images renamed; everything else is the event's own. */
  function RenamedBody(b: Body, rule: Option<Rule>, orders: Orders): Body {
    if b.Event? && rule.Some? then
      Event(b.ev.(after := RenamedRow(b.ev.after, rule.value, orders.after),
                  before := RenamedRow(b.ev.before, rule.value, orders.before)))
    else b
  }

  lemma {:induction false} RenamedStaysNormal(
      canon: string -> string, src: Fields, fields: map<string, FieldRule>, order: seq<string>)
    requires forall f :: f in src ==> Normal(canon, src[f]) == src[f]
    ensures NormalFields(canon, Renamed(src, fields, order)) == Renamed(src, fields, order)
  {
    hide Normal, Target;
    if order != [] {
      var n := |order| - 1;
      RenamedStaysNormal(canon, src, fields, order[..n]);
      var before := Renamed(src, fields, order[..n]);
      forall t | t in Renamed(src, fields, order)
        ensures Normal(canon, Renamed(src, fields, order)[t]) == Renamed(src, fields, order)[t]
      {
        if t in before {
          assert NormalFields(canon, before)[t] == before[t];
        }
      }
    }
  }

  /** A decoded row image as the mapper writes it back. */
  function RewrittenImage(image: Json, rule: Rule, order: seq<string>): Json {
    if image.Obj? then Obj(Renamed(image.fields, rule.fields, order)) else image
  }

  /** One row image, rewritten and then decoded. */
  lemma ImageCommutes(canon: string -> string, image: Json, rule: Rule, order: seq<string>)
    requires Stable(canon)
    ensures var rewritten := RewrittenImage(Normal(canon, image), rule, order);
      && (MapField(canon, rewritten).Err? <==> MapField(canon, image).Err?)
      && (MapField(canon, image).Ok? ==>
            MapField(canon, rewritten) == Ok(RenamedRow(MapField(canon, image).value, rule, order)))
  {
    if image.Obj? {
      var row := NormalFields(canon, image.fields);
      forall f | f in row ensures Normal(canon, row[f]) == row[f] {
        NormalTwice(canon, image.fields[f]);
      }
      RenamedStaysNormal(canon, row, rule.fields, order);
    }
  }

  lemma ScalarsCommute(canon: string -> string, j: Json)
    ensures StringField(Normal(canon, j)) == StringField(j)
    ensures Prints(canon, j) ==> NumberField(Normal(canon, j)) == NumberField(j)
    ensures StructLike(Normal(canon, j)) == StructLike(j)
  {
  }

  lemma RenameImageMember(payload: Fields, name: string, rule: Rule, order: seq<string>, other: string)
    ensures Member(Obj(RenameImage(payload, name, rule, order)), other)
         == if other == name then RewrittenImage(Member(Obj(payload), name), rule, order)
            else Member(Obj(payload), other)
  {
    hide Renamed;
  }

  lemma RewrittenMember(canon: string -> string, payload: Json, rule: Rule, orders: Orders, name: string)
    requires payload.Obj?
    ensures Member(Obj(Rewritten(NormalFields(canon, payload.fields), rule, orders)), name)
         == var image := Normal(canon, Member(payload, name));
            if name == "after" then RewrittenImage(image, rule, orders.after)
            else if name == "before" then RewrittenImage(image, rule, orders.before)
            else image
  {
    hide Renamed, RewrittenImage, RenameImage;
    var fields := NormalFields(canon, payload.fields);
    RenameImageMember(fields, "after", rule, orders.after, name);
    RenameImageMember(RenameImage(fields, "after", rule, orders.after), "before", rule, orders.before, name);
    NormalMember(canon, payload, name);
  }

  lemma NormalMember(canon: string -> string, j: Json, name: string)
    ensures Member(Normal(canon, j), name) == Normal(canon, Member(j, name))
  {
  }

  lemma PayloadCommutes(canon: string -> string, key: Wire, payload: Json, rule: Rule, orders: Orders)
    requires payload.Obj? && Stable(canon)
    requires Prints(canon, Member(Member(payload, "source"), "lsn"))
    requires Prints(canon, Member(Member(payload, "source"), "ts_ms"))
    ensures var rewritten := Obj(Rewritten(NormalFields(canon, payload.fields), rule, orders));
      DecodePayload(canon, key, rewritten, Normal(canon, Member(payload, "source")))
         == RenamedBody(DecodePayload(canon, key, payload, Member(payload, "source")), Some(rule), orders)
  {
    hide Renamed, DecodeKey, ParseInt64, Rewritten, MapField, NumberField, StringField, Normal, RewrittenImage, Member;
    var source := Member(payload, "source");
    RewrittenMember(canon, payload, rule, orders, "after");
    RewrittenMember(canon, payload, rule, orders, "before");
    RewrittenMember(canon, payload, rule, orders, "op");
    ImageCommutes(canon, Member(payload, "after"), rule, orders.after);
    ImageCommutes(canon, Member(payload, "before"), rule, orders.before);
    ScalarsCommute(canon, Member(payload, "op"));
    NormalMember(canon, source, "lsn");
    NormalMember(canon, source, "ts_ms");
    NormalMember(canon, source, "table");
    ScalarsCommute(canon, Member(source, "lsn"));
    ScalarsCommute(canon, Member(source, "ts_ms"));
    ScalarsCommute(canon, Member(source, "table"));
  }

  lemma RewrittenCommutes(canon: string -> string, key: Wire, env: Fields, rule: Rule, orders: Orders)
    requires "payload" in env && env["payload"].Obj? && Stable(canon)
    requires Prints(canon, Member(Member(env["payload"], "source"), "lsn"))
    requires Prints(canon, Member(Member(env["payload"], "source"), "ts_ms"))
    ensures var rewritten := Obj(Rewritten(NormalFields(canon, env["payload"].fields), rule, orders));
      Decode(canon, key, Text(Obj(NormalFields(canon, env)["payload" := rewritten])))
        == RenamedBody(Decode(canon, key, Text(Obj(env))), Some(rule), orders)
  {
    hide DecodePayload, Renamed, Rewritten;
    var payload := env["payload"];
    var rewritten := Obj(Rewritten(NormalFields(canon, payload.fields), rule, orders));
    PayloadCommutes(canon, key, payload, rule, orders);
    RewrittenMember(canon, payload, rule, orders, "source");
    ScalarsCommute(canon, Member(payload, "source"));
    assert Member(Obj(NormalFields(canon, env)["payload" := rewritten]), "payload") == rewritten;
  }

  /**
   For every envelope, well formed or not: if the mapper forwards it and the LSN and timestamp
   tokens survive a double, the sink decodes the forwarded bytes to what it would have decoded from
   the original ones, with exactly the row images renamed by the selected rule.
   */
  lemma TransformThenDecode(
      rules: Rules, canon: string -> string, topic: string, key: Wire, envelope: Wire, orders: Orders)
    requires Stable(canon)
    requires Prints(canon, Member(SourceOf(envelope), "lsn")) && Prints(canon, Member(SourceOf(envelope), "ts_ms"))
    requires Transform(rules, canon, topic, envelope, orders).Ok?
    ensures Decode(canon, key, Transform(rules, canon, topic, envelope, orders).value)
         == RenamedBody(Decode(canon, key, envelope), Selected(rules, canon, topic, envelope, orders), orders)
  {
    hide LookupForPayload, LookupByTopicTail, Decode, Rewritten;
    var rule := Selected(rules, canon, topic, envelope, orders);
    if envelope.Text? && Member(envelope.json, "payload").Obj? {
      var env := envelope.json.fields;
      assert NormalFields(canon, env)["payload"].fields == NormalFields(canon, env["payload"].fields);
    }
    if rule.Some? {
      RewrittenCommutes(canon, key, envelope.json.fields, rule.value, orders);
    }
  }

  /** An integer token spelled the way Go prints integers. */
  predicate IsPlain(token: string) {
    || token == "0"
    || (token != "" && if token[0] == '-' then |token| > 1 && token[1] != '0' else token[0] != '0' && token[0] != '+')
  }

  const EXACT := 0x20_0000_0000_0000

  /**
   Doubles as far as 2^54: integers up to 2^53 are exact; beyond, only even ones are, and an odd one
   goes to a neighbour.
   */
  ghost predicate PrintsDoubles(canon: string -> string) {
    && Stable(canon)
    && forall token :: PrintsDouble(canon, token)
  }

  predicate PrintsDouble(canon: string -> string, token: string) {
    var n := ParseInt64(token);
    n.Some? && IsPlain(token) && -2 * EXACT <= n.value <= 2 * EXACT ==>
      if -EXACT <= n.value <= EXACT || n.value % 2 == 0 then canon(token) == token
      else ParseInt64(canon(token)) == Some(n.value - 1) || ParseInt64(canon(token)) == Some(n.value + 1)
  }

  /** Printers of doubles in this sense exist: one that rounds odd numbers up. */
  lemma SomePrinter() returns (canon: string -> string)
    ensures PrintsDoubles(canon)
  {
    canon := RoundUp;
    hide ParseInt64, PrintInt, IsPlain;
    forall token ensures canon(canon(token)) == canon(token) && PrintsDouble(canon, token) {
      if Rounds(token) {
        PrintedParses(ParseInt64(token).value + 1);
      }
    }
  }

  predicate Rounds(token: string) {
    var n := ParseInt64(token);
    n.Some? && -2 * EXACT <= n.value <= 2 * EXACT && n.value % 2 == 1
      && (n.value < -EXACT || n.value > EXACT)
  }

  function RoundUp(token: string): string {
    if Rounds(token) then PrintInt(ParseInt64(token).value + 1) else token
  }

  lemma DecodedLsn(canon: string -> string, key: Wire, value: Wire, token: string)
    requires Member(SourceOf(value), "lsn") == Num(token) && Decode(canon, key, value).Event?
    ensures ParseInt64(token) == Some(Decode(canon, key, value).ev.lsn)
  {
    hide ParseInt64, DecodeKey, MapField;
  }

  lemma RewrittenSource(rules: Rules, canon: string -> string, topic: string, envelope: Wire, orders: Orders)
    requires Transform(rules, canon, topic, envelope, orders).Ok?
    requires Selected(rules, canon, topic, envelope, orders).Some?
    ensures SourceOf(Transform(rules, canon, topic, envelope, orders).value) == Normal(canon, SourceOf(envelope))
  {
    hide LookupForPayload, LookupByTopicTail, Rewritten;
    var env := envelope.json.fields;
    assert NormalFields(canon, env)["payload"].fields == NormalFields(canon, env["payload"].fields);
    RewrittenMember(canon, env["payload"], Selected(rules, canon, topic, envelope, orders).value, orders, "source");
  }

  /**
   An LSN of at most 2^54 comes through a rewriting transformer unchanged exactly when it is at most
   2^53 or even; an odd LSN above 2^53 reaches the gate as another number.
   */
  lemma LsnSurvivesIff(
      rules: Rules, canon: string -> string, topic: string, key: Wire, envelope: Wire, orders: Orders, token: string)
    requires PrintsDoubles(canon) && Prints(canon, Member(SourceOf(envelope), "ts_ms"))
    requires Member(SourceOf(envelope), "lsn") == Num(token) && IsPlain(token)
    requires Decode(canon, key, envelope).Event? && 0 <= Decode(canon, key, envelope).ev.lsn <= 2 * EXACT
    requires Transform(rules, canon, topic, envelope, orders).Ok?
    requires Selected(rules, canon, topic, envelope, orders).Some?
    ensures var lsn := Decode(canon, key, envelope).ev.lsn;
      var after := Decode(canon, key, Transform(rules, canon, topic, envelope, orders).value);
      (after.Event? && after.ev.lsn == lsn) <==> lsn <= EXACT || lsn % 2 == 0
  {
    hide Decode, Transform, Selected, ParseInt64, IsPlain;
    var value := Transform(rules, canon, topic, envelope, orders).value;
    DecodedLsn(canon, key, envelope, token);
    var lsn := Decode(canon, key, envelope).ev.lsn;
    assert PrintsDouble(canon, token);
    if canon(token) == token {
      TransformThenDecode(rules, canon, topic, key, envelope, orders);
    }
    if Decode(canon, key, value).Event? {
      RewrittenSource(rules, canon, topic, envelope, orders);
      NormalMember(canon, SourceOf(envelope), "lsn");
      DecodedLsn(canon, key, value, canon(token));
    }
  }

  /** `n` has 53 significant bits and a rest below the weight `u` of the last of them. */
  predicate InBinade(n: int, u: nat) {
    u > 0 && EXACT / 2 * u <= n < EXACT * u
  }

  /** The nearest multiple of `u`, halves to the even one: what a double keeps of `n` in its binade. */
  function Nearest(n: nat, u: nat): int
    requires u > 0
  {
    var q, r := n / u, n % u;
    if 2 * r < u || (2 * r == u && q % 2 == 0) then q * u else (q + 1) * u
  }

  predicate PowerOfTwo(u: nat) {
    u == 1 || (u > 0 && u % 2 == 0 && PowerOfTwo(u / 2))
  }

  /** Numbers with one nearest double are printed alike. */
  ghost predicate SharesDoubles(canon: string -> string) {
    forall s, t, u | PowerOfTwo(u) && OneDouble(s, t, u) :: ParseInt64(canon(s)) == ParseInt64(canon(t))
  }

  predicate OneDouble(s: string, t: string, u: nat) {
    var m, n := ParseInt64(s), ParseInt64(t);
    && m.Some? && n.Some? && IsPlain(s) && IsPlain(t)
    && InBinade(m.value, u) && InBinade(n.value, u) && Nearest(m.value, u) == Nearest(n.value, u)
  }

  /** An envelope a rewriting transformer forwards, with this token for its LSN. */
  ghost predicate Rewrites(
      rules: Rules, canon: string -> string, topic: string, envelope: Wire, orders: Orders, token: string)
  {
    && Transform(rules, canon, topic, envelope, orders).Ok?
    && Selected(rules, canon, topic, envelope, orders).Some?
    && Member(SourceOf(envelope), "lsn") == Num(token)
  }

  lemma RewrittenLsn(
      rules: Rules, canon: string -> string, topic: string, key: Wire, envelope: Wire, orders: Orders, token: string)
    requires Rewrites(rules, canon, topic, envelope, orders, token)
    requires Decode(canon, key, Transform(rules, canon, topic, envelope, orders).value).Event?
    ensures ParseInt64(canon(token))
         == Some(Decode(canon, key, Transform(rules, canon, topic, envelope, orders).value).ev.lsn)
  {
    hide Decode, Transform, Selected, ParseInt64;
    RewrittenSource(rules, canon, topic, envelope, orders);
    NormalMember(canon, SourceOf(envelope), "lsn");
    DecodedLsn(canon, key, Transform(rules, canon, topic, envelope, orders).value, canon(token));
  }

  /**
   Two LSNs with one nearest double, however large, reach the gate as one number; so at most one of
   them survives.
   */
  lemma LsnsCollapse(
      rules: Rules, canon: string -> string, topic: string, u: nat,
      key1: Wire, value1: Wire, orders1: Orders, token1: string,
      key2: Wire, value2: Wire, orders2: Orders, token2: string)
    requires SharesDoubles(canon) && PowerOfTwo(u) && OneDouble(token1, token2, u)
    requires Rewrites(rules, canon, topic, value1, orders1, token1)
    requires Rewrites(rules, canon, topic, value2, orders2, token2)
    requires Decode(canon, key1, Transform(rules, canon, topic, value1, orders1).value).Event?
    requires Decode(canon, key2, Transform(rules, canon, topic, value2, orders2).value).Event?
    ensures Decode(canon, key1, Transform(rules, canon, topic, value1, orders1).value).ev.lsn
         == Decode(canon, key2, Transform(rules, canon, topic, value2, orders2).value).ev.lsn
  {
    hide Decode, Transform, Rewrites, ParseInt64, OneDouble;
    RewrittenLsn(rules, canon, topic, key1, value1, orders1, token1);
    RewrittenLsn(rules, canon, topic, key2, value2, orders2, token2);
  }

  lemma CellRounds(q: int, r: nat, u: nat)
    requires 0 < u && r < u && EXACT / 2 <= q < EXACT
    ensures 0 <= q * u + r && InBinade(q * u + r, u)
    ensures Nearest(q * u + r, u) == if 2 * r < u || (2 * r == u && q % 2 == 0) then q * u else (q + 1) * u
  {
    Grows(EXACT / 2, q, u);
    Grows(q + 1, EXACT, u);
    assert (q + 1) * u == q * u + u;
    Divides(q, r, u);
    hide InBinade;
  }

  lemma Grows(a: int, b: int, u: nat)
    requires a <= b
    ensures a * u <= b * u
  {
  }

  lemma Unique(d: int, m: nat, q: int, r: nat, u: nat)
    requires d * u + m == q * u + r && m < u && r < u
    ensures d == q && m == r
  {
    if d < q {
      Grows(d + 1, q, u);
      assert false;
    }
    if q < d {
      Grows(q + 1, d, u);
      assert false;
    }
  }

  lemma Divides(q: int, r: nat, u: nat)
    requires r < u
    ensures (q * u + r) / u == q && (q * u + r) % u == r
  {
    var n := q * u + r;
    Unique(n / u, n % u, q, r, u);
  }

  lemma CellOf(n: int, u: nat) returns (q: int, r: nat)
    requires InBinade(n, u)
    ensures n == q * u + r && r < u && EXACT / 2 <= q < EXACT
  {
    q, r := n / u, n % u;
    if q < EXACT / 2 {
      Grows(q + 1, EXACT / 2, u);
      assert false;
    }
    if EXACT <= q {
      Grows(EXACT, q, u);
      assert false;
    }
  }

  /** Above 2^54 every LSN shares its double with the one before or the one after it. */
  lemma NeighbourShares(n: int, u: nat) returns (m: int)
    requires InBinade(n, u) && PowerOfTwo(u) && u >= 4
    ensures (m == n - 1 || m == n + 1) && 0 <= m && InBinade(m, u) && 0 <= n && Nearest(m, u) == Nearest(n, u)
  {
    var q, r := CellOf(n, u);
    hide InBinade, Nearest;
    CellRounds(q, r, u);
    var up := if 2 * r < u then r == 0 else if 2 * r > u then r < u - 1 || (u == 4 && q % 2 == 0) else q % 2 == 1;
    m := if up then n + 1 else n - 1;
    if r == u - 1 && up {
      assert (q + 1) * u == q * u + u;
      CellRounds(q + 1, 0, u);
    } else {
      CellRounds(q, m - q * u, u);
    }
  }
}
