/**
 services/sink/internal/decoder/decoder.go: from one Debezium envelope record to an event, a
 tombstone, or an error.
 */
module Decoder {
  import opened Wrappers
  import opened JsonValues
  import opened Writer

  datatype Body = Event(ev: CDCEvent) | Tombstone | Poison

  const MIN_INT64 := -0x8000_0000_0000_0000
  const MAX_INT64 := 0x7fff_ffff_ffff_ffff

  predicate IsDigit(c: char) {
    '0' <= c <= '9'
  }

  predicate AllDigits(s: string) {
    forall i :: 0 <= i < |s| ==> IsDigit(s[i])
  }

  function DigitsValue(s: string): int
    requires AllDigits(s)
  {
    if s == "" then 0 else 10 * DigitsValue(s[..|s| - 1]) + (s[|s| - 1] as int - '0' as int)
  }

  /** strconv.ParseInt in base 10, 64 bits. */
  function ParseInt64(s: string): Option<int> {
    var digits := if s != "" && (s[0] == '-' || s[0] == '+') then s[1..] else s;
    if digits == "" || !AllDigits(digits) then None
    else
      var n := if s[0] == '-' then -DigitsValue(digits) else DigitsValue(digits);
      if MIN_INT64 <= n <= MAX_INT64 then Some(n) else None
  }

  function SkipDigits(s: string): string {
    if s != "" && IsDigit(s[0]) then SkipDigits(s[1..]) else s
  }

  /** A JSON number literal, as section 6 of RFC 8259 defines it. */
  predicate IsNumberLiteral(s: string) {
    var unsigned := if s != "" && s[0] == '-' then s[1..] else s;
    unsigned != "" && IsDigit(unsigned[0]) &&
    var afterInt := if unsigned[0] == '0' then unsigned[1..] else SkipDigits(unsigned);
    var hasFrac := |afterInt| >= 2 && afterInt[0] == '.' && IsDigit(afterInt[1]);
    var afterFrac := if hasFrac then SkipDigits(afterInt[2..]) else afterInt;
    afterFrac == "" || ExponentOnly(afterFrac)
  }

  predicate ExponentOnly(s: string) {
    |s| >= 2 && (s[0] == 'e' || s[0] == 'E') &&
    var digits := if s[1] == '+' || s[1] == '-' then s[2..] else s[1..];
    digits != "" && AllDigits(digits)
  }

  /** A struct field: absent and null both leave the zero value. */
  function Member(j: Json, name: string): Json {
    if j.Obj? && name in j.fields then j.fields[name] else Null
  }

  /** Struct-typed fields accept an object or null. */
  predicate StructLike(j: Json) {
    j.Obj? || j.Null?
  }

  function StringField(j: Json): Result<string> {
    match j
    case Null => Ok("")
    case Str(s) => Ok(s)
    case _ => Err
  }

  /** json.Number keeps a number's token, and accepts a string that spells a number. */
  function NumberField(j: Json): Result<string> {
    match j
    case Null => Ok("")
    case Num(token) => Ok(token)
    case Str(s) => if IsNumberLiteral(s) then Ok(s) else Err
    case _ => Err
  }

  function MapField(canon: string -> string, j: Json): Result<Option<Fields>> {
    match j
    case Null => Ok(None)
    case Obj(fields) => Ok(Some(NormalFields(canon, fields)))
    case _ => Err
  }

  /** The primary key: the number token under payload.id of the record's key. */
  function DecodeKey(key: Wire): Result<string> {
    if !key.Text? || !StructLike(key.json) || !StructLike(Member(key.json, "payload")) then Err
    else NumberField(Member(Member(key.json, "payload"), "id"))
  }

  function Decode(canon: string -> string, key: Wire, value: Wire): Body {
    if value.Nil? || value.Empty? || value == Text(Null) then Tombstone
    else if !value.Text? || !value.json.Obj? then Poison
    else
      var payload := Member(value.json, "payload");
      var source := Member(payload, "source");
      if !StructLike(payload) || !StructLike(source) then Poison
      else DecodePayload(canon, key, payload, source)
  }

  function DecodePayload(canon: string -> string, key: Wire, payload: Json, source: Json): Body {
    var before := MapField(canon, Member(payload, "before"));
    var after := MapField(canon, Member(payload, "after"));
    var lsnToken := NumberField(Member(source, "lsn"));
    var table := StringField(Member(source, "table"));
    var tsToken := NumberField(Member(source, "ts_ms"));
    var op := StringField(Member(payload, "op"));
    var pk := DecodeKey(key);
    if before.Err? || after.Err? || lsnToken.Err? || table.Err? || tsToken.Err? || op.Err? || pk.Err? then Poison
    else
      var lsn := ParseInt64(lsnToken.value);
      var ts := ParseInt64(tsToken.value);
      if lsn.None? || pk.value == "" then Poison
      else
        Event(CDCEvent(table.value, pk.value, lsn.value, if ts.Some? then ts.value else 0,
                       op.value, after.value, before.value))
  }

  /** A tombstone is a value that is absent, empty, or the JSON null. */
  lemma TombstoneIff(canon: string -> string, key: Wire, value: Wire)
    ensures Decode(canon, key, value).Tombstone? <==> value == Nil || value == Empty || value == Text(Null)
  {
    hide DecodePayload;
    if value.Text? && value.json.Obj? && !value.Nil? {
      PayloadNoTombstone(canon, key, Member(value.json, "payload"), Member(Member(value.json, "payload"), "source"));
    }
  }

  lemma PayloadNoTombstone(canon: string -> string, key: Wire, payload: Json, source: Json)
    ensures !DecodePayload(canon, key, payload, source).Tombstone?
  {
    hide DecodeKey, MapField, NumberField, StringField, ParseInt64;
  }

  /** The member, or null when there is none or `j` is no object. */
  ghost predicate HasMember(j: Json, name: string, m: Json) {
    if j.Obj? && name in j.fields then m == j.fields[name] else m == Null
  }

  /** A number, or a string that spells one, with token `token`. */
  ghost predicate Spells(j: Json, token: string) {
    j == Num(token) || (j == Str(token) && IsNumberLiteral(token))
  }

  /** A key whose payload has an id. */
  ghost predicate GoodKey(key: Wire) {
    && key.Text? && (key.json.Obj? || key.json.Null?)
    && exists payload, id, token ::
         && HasMember(key.json, "payload", payload) && (payload.Obj? || payload.Null?)
         && HasMember(payload, "id", id) && Spells(id, token) && token != ""
  }

  /** The envelope as the sink wants it: each member absent, null or of its type, and an integer LSN of 64 bits. */
  ghost predicate GoodEnvelope(envelope: Json) {
    envelope.Obj? && exists payload, source ::
      && HasMember(envelope, "payload", payload) && (payload.Obj? || payload.Null?)
      && HasMember(payload, "source", source) && (source.Obj? || source.Null?)
      && GoodMembers(payload, source)
  }

  ghost predicate GoodMembers(payload: Json, source: Json) {
    && (forall m | HasMember(payload, "before", m) :: m.Obj? || m.Null?)
    && (forall m | HasMember(payload, "after", m) :: m.Obj? || m.Null?)
    && (forall m | HasMember(payload, "op", m) :: m.Str? || m.Null?)
    && (forall m | HasMember(source, "table", m) :: m.Str? || m.Null?)
    && (forall m | HasMember(source, "ts_ms", m) :: m == Null || exists token :: Spells(m, token))
    && (forall m | HasMember(source, "lsn", m) :: exists token :: Spells(m, token) && ParseInt64(token).Some?)
  }

  /** What is malformed, on the wire: exactly what is neither a tombstone nor a good key with a good envelope. */
  lemma PoisonIff(canon: string -> string, key: Wire, value: Wire)
    ensures Decode(canon, key, value).Poison?
       <==> && value != Nil && value != Empty && value != Text(Null)
            && !(value.Text? && GoodEnvelope(value.json) && GoodKey(key))
  {
    hide DecodePayload, GoodMembers, GoodKey;
    if value.Text? && value.json.Obj? {
      var payload := Member(value.json, "payload");
      var source := Member(payload, "source");
      assert HasMember(value.json, "payload", payload) && HasMember(payload, "source", source);
      if StructLike(payload) && StructLike(source) {
        PayloadPoisonIff(canon, key, payload, source);
      }
    }
  }

  lemma PayloadPoisonIff(canon: string -> string, key: Wire, payload: Json, source: Json)
    ensures DecodePayload(canon, key, payload, source).Poison? <==> !(GoodMembers(payload, source) && GoodKey(key))
  {
    hide GoodMembers, GoodKey, DecodeKey, MapField, NumberField, StringField, ParseInt64, Member;
    KeyIff(key);
    MembersIff(canon, payload, source);
  }

  lemma KeyIff(key: Wire)
    ensures DecodeKey(key).Ok? && DecodeKey(key).value != "" <==> GoodKey(key)
  {
    if key.Text? {
      var payload := Member(key.json, "payload");
      var id := Member(payload, "id");
      assert HasMember(key.json, "payload", payload) && HasMember(payload, "id", id);
      NumberIff(id);
    }
  }

  lemma NumberIff(j: Json)
    ensures NumberField(j).Err? <==> j != Null && forall token :: !Spells(j, token)
    ensures forall token :: Spells(j, token) ==> NumberField(j) == Ok(token)
    ensures NumberField(j).Ok? && NumberField(j).value != "" ==> Spells(j, NumberField(j).value)
  {
    if j.Num? {
      assert Spells(j, j.token);
    }
    if j.Str? && IsNumberLiteral(j.s) {
      assert Spells(j, j.s);
    }
    hide IsNumberLiteral;
  }

  lemma ImageIff(canon: string -> string, j: Json, name: string)
    ensures MapField(canon, Member(j, name)).Ok? <==> forall m | HasMember(j, name, m) :: m.Obj? || m.Null?
  {
    assert HasMember(j, name, Member(j, name));
  }

  lemma NameIff(j: Json, name: string)
    ensures StringField(Member(j, name)).Ok? <==> forall m | HasMember(j, name, m) :: m.Str? || m.Null?
  {
    assert HasMember(j, name, Member(j, name));
  }

  lemma StampIff(j: Json)
    ensures NumberField(Member(j, "ts_ms")).Ok?
       <==> forall m | HasMember(j, "ts_ms", m) :: m == Null || exists token :: Spells(m, token)
  {
    hide NumberField, Spells;
    assert HasMember(j, "ts_ms", Member(j, "ts_ms"));
    NumberIff(Member(j, "ts_ms"));
    NullIsNoNumber();
  }

  lemma NullIsNoNumber()
    ensures NumberField(Null) == Ok("") && forall token :: !Spells(Null, token)
  {
  }

  lemma LsnIff(j: Json)
    ensures NumberField(Member(j, "lsn")).Ok? && ParseInt64(NumberField(Member(j, "lsn")).value).Some?
       <==> forall m | HasMember(j, "lsn", m) :: exists token :: Spells(m, token) && ParseInt64(token).Some?
  {
    NoDigits();
    hide NumberField, Spells, ParseInt64;
    var lsn := Member(j, "lsn");
    assert HasMember(j, "lsn", lsn);
    NumberIff(lsn);
    NullIsNoNumber();
  }

  lemma MembersIff(canon: string -> string, payload: Json, source: Json)
    ensures GoodMembers(payload, source)
       <==> && MapField(canon, Member(payload, "before")).Ok? && MapField(canon, Member(payload, "after")).Ok?
            && StringField(Member(payload, "op")).Ok? && StringField(Member(source, "table")).Ok?
            && NumberField(Member(source, "ts_ms")).Ok? && NumberField(Member(source, "lsn")).Ok?
            && ParseInt64(NumberField(Member(source, "lsn")).value).Some?
  {
    hide ParseInt64, NumberField, Spells, MapField, StringField, Member, HasMember;
    ImageIff(canon, payload, "before");
    ImageIff(canon, payload, "after");
    NameIff(payload, "op");
    NameIff(source, "table");
    StampIff(source);
    LsnIff(source);
  }

  lemma NoDigits()
    ensures ParseInt64("") == None
  {
  }

  function Digit(d: nat): char
    requires d < 10
  {
    ('0' as int + d) as char
  }

  function PrintNat(n: nat): string {
    if n < 10 then [Digit(n)] else PrintNat(n / 10) + [Digit(n % 10)]
  }

  function PrintInt(n: int): string {
    if n < 0 then "-" + PrintNat(-n) else PrintNat(n)
  }

  lemma {:induction false} PrintNatParses(n: nat)
    ensures PrintNat(n) != "" && AllDigits(PrintNat(n)) && DigitsValue(PrintNat(n)) == n
  {
    var s := PrintNat(n);
    if n < 10 {
      assert s[..0] == "";
    } else {
      PrintNatParses(n / 10);
      assert s[..|s| - 1] == PrintNat(n / 10) && s[|s| - 1] == Digit(n % 10);
    }
  }

  /** A printed integer parses to itself if it fits 64 bits, and not at all otherwise. */
  lemma PrintedParses(n: int)
    ensures ParseInt64(PrintInt(n)) == if MIN_INT64 <= n <= MAX_INT64 then Some(n) else None
    ensures PrintInt(n) != ""
  {
    PrintNatParses(if n < 0 then -n else n);
    if n < 0 {
      assert PrintInt(n)[1..] == PrintNat(-n);
    } else {
      assert IsDigit(PrintNat(n)[0]);
    }
  }

  function ImageJson(row: Option<Fields>): Json {
    if row.Some? then Obj(row.value) else Null
  }

  function SourceJson(ev: CDCEvent): Json {
    Obj(map["lsn" := Num(PrintInt(ev.lsn)), "table" := Str(ev.table), "ts_ms" := Num(PrintInt(ev.sourceTsMs))])
  }

  /** The envelope of an event, and its key. */
  function Envelope(ev: CDCEvent): Wire {
    Text(Obj(map["payload" := Obj(map[
      "before" := ImageJson(ev.before), "after" := ImageJson(ev.after),
      "source" := SourceJson(ev), "op" := Str(ev.op)])]))
  }

  function KeyEnvelope(pk: string): Wire {
    Text(Obj(map["payload" := Obj(map["id" := Num(pk)])]))
  }

  /** The row image as the decoder keeps it, its numbers read as doubles. */
  function NormalRow(canon: string -> string, row: Option<Fields>): Option<Fields> {
    if row.Some? then Some(NormalFields(canon, row.value)) else None
  }

  lemma SourceMembers(ev: CDCEvent)
    ensures var source := SourceJson(ev);
      && source.Obj? && Member(source, "lsn") == Num(PrintInt(ev.lsn)) && Member(source, "table") == Str(ev.table)
      && Member(source, "ts_ms") == Num(PrintInt(ev.sourceTsMs))
  {
    hide PrintInt;
  }

  lemma PayloadMembers(ev: CDCEvent)
    ensures Envelope(ev).Text? && Envelope(ev).json.Obj?
    ensures var payload := Member(Envelope(ev).json, "payload");
      && payload.Obj? && Member(payload, "source") == SourceJson(ev) && Member(payload, "op") == Str(ev.op)
      && Member(payload, "before") == ImageJson(ev.before) && Member(payload, "after") == ImageJson(ev.after)
  {
    hide SourceJson, ImageJson;
  }

  lemma ImageParses(canon: string -> string, row: Option<Fields>)
    ensures MapField(canon, ImageJson(row)) == Ok(NormalRow(canon, row))
  {
  }

  lemma KeyParses(pk: string)
    ensures DecodeKey(KeyEnvelope(pk)) == Ok(pk)
  {
  }

  /**
   Every event with a key comes back from its envelope, its LSN and key token to the last digit; only
   the numbers of its images are read as doubles.
   */
  lemma EnvelopeRoundTrip(canon: string -> string, ev: CDCEvent)
    requires ev.pk != "" && MIN_INT64 <= ev.lsn <= MAX_INT64 && MIN_INT64 <= ev.sourceTsMs <= MAX_INT64
    ensures Decode(canon, KeyEnvelope(ev.pk), Envelope(ev))
         == Event(ev.(before := NormalRow(canon, ev.before), after := NormalRow(canon, ev.after)))
  {
    hide ParseInt64, PrintInt, NormalRow, Envelope, SourceJson, ImageJson, Member, KeyEnvelope, DecodeKey, MapField;
    PrintedParses(ev.lsn);
    PrintedParses(ev.sourceTsMs);
    SourceMembers(ev);
    PayloadMembers(ev);
    ImageParses(canon, ev.before);
    ImageParses(canon, ev.after);
    KeyParses(ev.pk);
  }

  /** An envelope with nothing but an LSN. */
  function BareEnvelope(lsn: int): Wire {
    Text(Obj(map["payload" := Obj(map["source" := Obj(map["lsn" := Num(PrintInt(lsn))])])]))
  }

  lemma BareMembers(lsn: int)
    ensures BareEnvelope(lsn).Text? && BareEnvelope(lsn).json.Obj?
    ensures var payload := Member(BareEnvelope(lsn).json, "payload");
      var source := Member(payload, "source");
      && payload.Obj? && source.Obj? && Member(source, "lsn") == Num(PrintInt(lsn))
      && Member(source, "table") == Member(source, "ts_ms") == Null
      && Member(payload, "op") == Member(payload, "before") == Member(payload, "after") == Null
  {
    hide PrintInt;
  }

  /**
   Only the LSN and the key are mandatory. A missing table or operation is silently the empty string:
   this envelope has neither, and decodes.
   */
  lemma MissingNamesDecode(canon: string -> string, pk: string, lsn: int)
    requires pk != "" && MIN_INT64 <= lsn <= MAX_INT64
    ensures Decode(canon, KeyEnvelope(pk), BareEnvelope(lsn)) == Event(CDCEvent("", pk, lsn, 0, "", None, None))
  {
    assert ParseInt64("") == None;
    hide ParseInt64, PrintInt, Member, KeyEnvelope, DecodeKey, BareEnvelope;
    PrintedParses(lsn);
    BareMembers(lsn);
    KeyParses(pk);
  }

  /** A decoded event has the envelope's table and operation exactly when the envelope spells them as strings. */
  lemma NamesAreTheEnvelopesIff(canon: string -> string, key: Wire, value: Wire)
    requires Decode(canon, key, value).Event?
    ensures var ev := Decode(canon, key, value).ev;
      var payload := Member(value.json, "payload");
      var table, op := Member(Member(payload, "source"), "table"), Member(payload, "op");
      && (table == Str(ev.table) <==> table.Str?) && (!table.Str? ==> ev.table == "")
      && (op == Str(ev.op) <==> op.Str?) && (!op.Str? ==> ev.op == "")
      && ev.pk != "" && MIN_INT64 <= ev.lsn <= MAX_INT64
  {
    hide DecodeKey, MapField, NumberField;
  }
}
