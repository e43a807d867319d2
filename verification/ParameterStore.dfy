/** Parameter snapshots: what a model saves, what a strict load accepts, and the file
    operations that make a save atomic against a crash at any point. */
module ParameterStore {
  import opened Words
  import opened Wrappers
  import opened Codec
  import opened HexCodec
  import opened FileSystem

  type Key = (nat, nat)

  /** A float is kept as its 32 raw bits. */
  datatype Kind = Integer(t: IntType) | Float32

  datatype Parameter = Parameter(key: Key, kind: Kind, readOnly: bool)

  datatype Identity = Identity(device: string, model: string, mode: string)

  type Values = map<Key, int>

  /** One model as the store sees it; some models check their profile parameters. */
  datatype Model = Model(
    name: string,                      // parameter set
    identity: Identity,
    catalog: seq<Parameter>,
    validates: bool,
    od: Values)

  type Texts = map<Key, string>

  datatype Document = Document(schema: int, identity: Identity, values: Texts, digest: int)

  /** The content of a file: a document, or anything else. */
  datatype Content = Json(doc: Document) | Bytes(tag: int)

  /** The checksum is arbitrary. */
  type Checksum = (int, Identity, Texts) -> int

  // ---- Encoding of one parameter ----

  function TypeOf(kind: Kind): IntType {
    if kind.Integer? then kind.t else UINT32
  }

  predicate ValidKind(kind: Kind) {
    TypeOf(kind).size > 0
  }

  predicate Finite(kind: Kind, value: int) {
    kind == Float32 ==> value / 0x80_0000 % 0x100 != 0xff
  }

  function Lower(c: char): char {
    if c == 'A' then 'a' else if c == 'B' then 'b' else if c == 'C' then 'c'
    else if c == 'D' then 'd' else if c == 'E' then 'e' else if c == 'F' then 'f' else c
  }

  function LowerAll(text: string): (lower: string)
    ensures |lower| == |text|
  {
    seq(|text|, i requires 0 <= i < |text| => Lower(text[i]))
  }

  /** Loading accepts upper-case digits too. */
  function ParseHex(text: string, size: nat): Option<Octets> {
    Unhex(LowerAll(text), size)
  }

  function TextOf(p: Parameter, value: int): string {
    match Encode(TypeOf(p.kind), value)
    case None => ""
    case Some(data) => Hex(data)
  }

  function ValueOf(p: Parameter, raw: string): int {
    match ParseHex(raw, TypeOf(p.kind).size)
    case None => 0
    case Some(data) => var v := Decode(TypeOf(p.kind), data); if v.None? then 0 else v.value
  }

  /** A stored text of the right form, finite, and unchanged where it is read-only. */
  predicate Acceptable(p: Parameter, raw: string, original: string) {
    && ParseHex(raw, TypeOf(p.kind).size).Some?
    && Finite(p.kind, ValueOf(p, raw))
    && (p.readOnly ==> raw == original)
  }

  lemma {:induction false} HexIsLower(data: Octets)
    ensures LowerAll(Hex(data)) == Hex(data)
  {
    UnhexHex(data);
    DigitsAreLower(Hex(data));
  }

  lemma DigitsAreLower(text: string)
    requires AllDigits(text)
    ensures LowerAll(text) == text
  {
    forall i | 0 <= i < |text|
      ensures LowerAll(text)[i] == text[i]
    {
      assert IsDigit(text[i]);
    }
  }

  /** What was saved is read back, for every value of the type. */
  lemma ValueOfText(p: Parameter, value: int)
    requires ValidKind(p.kind) && InRange(TypeOf(p.kind), value)
    ensures ParseHex(TextOf(p, value), TypeOf(p.kind).size).Some? && ValueOf(p, TextOf(p, value)) == value
  {
    hide Encode, Decode, Hex, Unhex, LowerAll, InRange;
    DecodeEncoded(TypeOf(p.kind), value, []);
    var data := Encode(TypeOf(p.kind), value).value;
    assert data + [] == data;
    UnhexHex(data);
    HexIsLower(data);
  }

  // ---- A whole catalog ----

  predicate Distinct(catalog: seq<Parameter>) {
    forall i, k :: 0 <= i < k < |catalog| ==> catalog[i].key != catalog[k].key
  }

  /** Every catalog entry has a value of its type. */
  predicate Encodable(catalog: seq<Parameter>, od: Values) {
    forall i :: 0 <= i < |catalog| ==>
      catalog[i].key in od && ValidKind(catalog[i].kind) && InRange(TypeOf(catalog[i].kind), od[catalog[i].key])
  }

  function TextsOf(catalog: seq<Parameter>, od: Values): (texts: Texts)
    requires Encodable(catalog, od)
  {
    if catalog == [] then map[]
    else
      var p := catalog[|catalog| - 1];
      TextsOf(catalog[..|catalog| - 1], od)[p.key := TextOf(p, od[p.key])]
  }

  predicate AllAcceptable(catalog: seq<Parameter>, values: Texts, originals: Texts) {
    forall i :: 0 <= i < |catalog| ==>
      var p := catalog[i];
      p.key in values && p.key in originals && Acceptable(p, values[p.key], originals[p.key])
  }

  function Decoded(catalog: seq<Parameter>, values: Texts): Values {
    if catalog == [] then map[]
    else
      var p := catalog[|catalog| - 1];
      Decoded(catalog[..|catalog| - 1], values)[p.key := if p.key in values then ValueOf(p, values[p.key]) else 0]
  }

  /** The check of a model that validates its profile parameters. */
  predicate ProfileAccepts(validates: bool, values: Values) {
    validates ==>
      && (0x6081, 0) in values && (0x6083, 0) in values && (0x6084, 0) in values
      && values[(0x6081, 0)] > 0 && values[(0x6083, 0)] > 0 && values[(0x6084, 0)] > 0
      && values[(0x6083, 0)] == values[(0x6084, 0)]
  }

  /** The values of the catalog alone. */
  function Selected(m: Model): Values
    requires Encodable(m.catalog, m.od)
  {
    map k | k in m.od && InCatalog(m.catalog, k) :: m.od[k]
  }

  predicate InCatalog(catalog: seq<Parameter>, key: Key) {
    exists i :: 0 <= i < |catalog| && catalog[i].key == key
  }

  lemma {:induction false} TextsAre(catalog: seq<Parameter>, od: Values)
    requires Encodable(catalog, od) && Distinct(catalog)
    ensures forall k :: k in TextsOf(catalog, od) <==> InCatalog(catalog, k)
    ensures forall i :: 0 <= i < |catalog| ==>
              catalog[i].key in TextsOf(catalog, od)
              && TextsOf(catalog, od)[catalog[i].key] == TextOf(catalog[i], od[catalog[i].key])
  {
    hide TextOf, InRange;
    if catalog != [] {
      var n := |catalog| - 1;
      var before := catalog[..n];
      TextsAre(before, od);
      assert forall i :: 0 <= i < n ==> before[i] == catalog[i];
      CatalogStep(catalog);
    }
  }

  lemma CatalogStep(catalog: seq<Parameter>)
    requires catalog != []
    ensures forall k :: InCatalog(catalog, k) <==>
              InCatalog(catalog[..|catalog| - 1], k) || k == catalog[|catalog| - 1].key
  {
    var n := |catalog| - 1;
    forall k
      ensures InCatalog(catalog, k) <==> InCatalog(catalog[..n], k) || k == catalog[n].key
    {
      if InCatalog(catalog[..n], k) {
        var i :| 0 <= i < n && catalog[..n][i].key == k;
        assert catalog[i].key == k;
      }
      if InCatalog(catalog, k) && k != catalog[n].key {
        var i :| 0 <= i < |catalog| && catalog[i].key == k;
        assert catalog[..n][i].key == k;
      }
    }
  }

  lemma {:induction false} DecodedAre(catalog: seq<Parameter>, values: Texts)
    requires Distinct(catalog)
    ensures forall k :: k in Decoded(catalog, values) <==> InCatalog(catalog, k)
    ensures forall i :: 0 <= i < |catalog| ==>
              catalog[i].key in Decoded(catalog, values)
              && (catalog[i].key in values ==>
                    Decoded(catalog, values)[catalog[i].key] == ValueOf(catalog[i], values[catalog[i].key]))
  {
    hide ValueOf;
    if catalog != [] {
      var n := |catalog| - 1;
      var before := catalog[..n];
      DecodedAre(before, values);
      assert forall i :: 0 <= i < n ==> before[i] == catalog[i];
      CatalogStep(catalog);
    }
  }

  // ---- Load and save on values ----

  function SchemaFor(identity: Identity): int {
    if identity.model == "f_kr_cmmt" then 2 else 1
  }

  function SchemaOf(m: Model): int {
    SchemaFor(m.identity)
  }

  function PathOf(name: string): Name {
    name + ".json"
  }

  predicate Sealed(sum: Checksum, doc: Document) {
    sum(doc.schema, doc.identity, doc.values) == doc.digest
  }

  predicate ValidModel(m: Model) {
    Distinct(m.catalog) && Encodable(m.catalog, m.od)
  }

  /** The strict load: a document for this model with exactly its catalog, every value
      acceptable, and the profile check on all of them together. */
  predicate Loads(sum: Checksum, m: Model, content: Content)
    requires ValidModel(m)
  {
    && content.Json?
    && var doc := content.doc;
       && Sealed(sum, doc)
       && doc.schema == SchemaOf(m) && doc.identity == m.identity
       && doc.values.Keys == TextsOf(m.catalog, m.od).Keys
       && AllAcceptable(m.catalog, doc.values, TextsOf(m.catalog, m.od))
       && ProfileAccepts(m.validates, Decoded(m.catalog, doc.values))
  }

  function LoadedModel(m: Model, doc: Document): Model {
    m.(od := m.od + Decoded(m.catalog, doc.values))
  }

  function DocumentOf(sum: Checksum, m: Model): Document
    requires ValidModel(m)
  {
    var values := TextsOf(m.catalog, m.od);
    Document(SchemaOf(m), m.identity, values, sum(SchemaOf(m), m.identity, values))
  }

  /** A save is refused before any file operation when the profile check fails. */
  predicate Savable(m: Model) {
    ValidModel(m) && ProfileAccepts(m.validates, Selected(m))
  }

  /** Another instance of the same device: same identity and catalog, and the same
      read-only values. */
  predicate SameDevice(m: Model, other: Model)
    requires ValidModel(m) && ValidModel(other)
  {
    && other.identity == m.identity && other.catalog == m.catalog && other.validates == m.validates
    && forall i :: 0 <= i < |m.catalog| && m.catalog[i].readOnly ==>
         other.od[m.catalog[i].key] == m.od[m.catalog[i].key]
  }

  predicate AllFinite(m: Model)
    requires ValidModel(m)
  {
    forall i :: 0 <= i < |m.catalog| ==> Finite(m.catalog[i].kind, m.od[m.catalog[i].key])
  }

  lemma SavedValuesDecode(sum: Checksum, m: Model)
    requires ValidModel(m)
    ensures Decoded(m.catalog, DocumentOf(sum, m).values) == Selected(m)
  {
    hide ValueOf, TextOf, InRange, Finite;
    var values := TextsOf(m.catalog, m.od);
    TextsAre(m.catalog, m.od);
    DecodedAre(m.catalog, values);
    forall k | InCatalog(m.catalog, k)
      ensures k in m.od && Decoded(m.catalog, values)[k] == m.od[k]
    {
      var i :| 0 <= i < |m.catalog| && m.catalog[i].key == k;
      ValueOfText(m.catalog[i], m.od[k]);
    }
  }

  /** Each saved text is accepted by the same device exactly when it is finite. */
  lemma SavedIsAcceptable(sum: Checksum, m: Model, other: Model)
    requires ValidModel(m) && ValidModel(other) && SameDevice(m, other)
    ensures AllAcceptable(m.catalog, DocumentOf(sum, m).values, TextsOf(other.catalog, other.od)) <==> AllFinite(m)
    ensures DocumentOf(sum, m).values.Keys == TextsOf(other.catalog, other.od).Keys
  {
    hide ValueOf, TextOf, InRange, Finite, ParseHex;
    var saved, originals := DocumentOf(sum, m).values, TextsOf(other.catalog, other.od);
    TextsAre(m.catalog, m.od);
    TextsAre(other.catalog, other.od);
    forall i | 0 <= i < |m.catalog|
      ensures var p := m.catalog[i];
              Acceptable(p, saved[p.key], originals[p.key]) <==> Finite(p.kind, m.od[p.key])
    {
      ValueOfText(m.catalog[i], m.od[m.catalog[i].key]);
    }
  }

  lemma SavedComesBack(sum: Checksum, m: Model, other: Model)
    requires ValidModel(m) && ValidModel(other) && SameDevice(m, other)
    ensures var back := LoadedModel(other, DocumentOf(sum, m));
            && ValidModel(back) && TextsOf(back.catalog, back.od) == TextsOf(m.catalog, m.od)
            && (forall k :: k in other.od && !InCatalog(m.catalog, k) ==> k in back.od && back.od[k] == other.od[k])
  {
    hide ValueOf, TextOf, InRange, TextsOf, DocumentOf;
    SavedValuesDecode(sum, m);
    DecodedAre(m.catalog, DocumentOf(sum, m).values);
    var back := LoadedModel(other, DocumentOf(sum, m));
    forall i | 0 <= i < |m.catalog|
      ensures m.catalog[i].key in back.od && back.od[m.catalog[i].key] == m.od[m.catalog[i].key]
    {
      assert InCatalog(m.catalog, m.catalog[i].key);
    }
    SameTexts(m.catalog, m.od, back.od);
  }

  /** A saved snapshot loads into a fresh instance of the same device exactly when every
      float in it is finite, and then the parameter values of both are equal and nothing
      else changed. A non-finite float can be written and saved, but not loaded again. */
  lemma SavedLoadsExactlyWhenFinite(sum: Checksum, m: Model, other: Model)
    requires Savable(m) && ValidModel(other) && SameDevice(m, other)
    ensures Loads(sum, other, Json(DocumentOf(sum, m))) <==> AllFinite(m)
    ensures var back := LoadedModel(other, DocumentOf(sum, m));
            && ValidModel(back) && TextsOf(back.catalog, back.od) == TextsOf(m.catalog, m.od)
            && (forall k :: k in other.od && !InCatalog(m.catalog, k) ==> k in back.od && back.od[k] == other.od[k])
  {
    hide AllAcceptable, AllFinite, TextsOf, ProfileAccepts, Selected;
    SavedValuesDecode(sum, m);
    SavedIsAcceptable(sum, m, other);
    SavedComesBack(sum, m, other);
  }

  lemma {:induction false} SameTexts(catalog: seq<Parameter>, a: Values, b: Values)
    requires Encodable(catalog, a)
    requires forall i :: 0 <= i < |catalog| ==> catalog[i].key in b && b[catalog[i].key] == a[catalog[i].key]
    ensures Encodable(catalog, b) && TextsOf(catalog, b) == TextsOf(catalog, a)
  {
    hide TextOf, InRange;
    if catalog != [] {
      SameTexts(catalog[..|catalog| - 1], a, b);
    }
  }

  // ---- Refusals ----

  /** A text that is not the hexadecimal form of so many octets, in either case. */
  predicate Malformed(raw: string, size: nat) {
    |raw| != 2 * size
    || exists i :: 0 <= i < |raw| && !('0' <= raw[i] <= '9' || 'a' <= raw[i] <= 'f' || 'A' <= raw[i] <= 'F')
  }

  lemma LowerKeepsDigits(c: char)
    ensures IsDigit(Lower(c)) <==> '0' <= c <= '9' || 'a' <= c <= 'f' || 'A' <= c <= 'F'
  {
  }

  lemma ParsesUnlessMalformed(raw: string, size: nat)
    ensures ParseHex(raw, size).None? <==> Malformed(raw, size)
  {
    hide IsDigit, Lower;
    forall i | 0 <= i < |raw|
      ensures IsDigit(LowerAll(raw)[i]) <==>
                '0' <= raw[i] <= '9' || 'a' <= raw[i] <= 'f' || 'A' <= raw[i] <= 'F'
    {
      LowerKeepsDigits(raw[i]);
    }
  }

  /** A text that no model takes for this parameter: malformed, a float that is infinite or
      no number, or another text for a read-only value. */
  predicate BadText(p: Parameter, raw: string, current: string) {
    || Malformed(raw, TypeOf(p.kind).size)
    || (p.kind == Float32 && ValueOf(p, raw) / 0x80_0000 % 0x100 == 0xff)
    || (p.readOnly && raw != current)
  }

  lemma BadIsUnacceptable(p: Parameter, raw: string, current: string)
    ensures BadText(p, raw, current) <==> !Acceptable(p, raw, current)
  {
    hide ParseHex, Malformed, ValueOf;
    ParsesUnlessMalformed(raw, TypeOf(p.kind).size);
  }

  /** The document does not tell a positive velocity and one positive acceleration for both
      ramps. */
  ghost predicate BadProfile(catalog: seq<Parameter>, texts: Texts) {
    !exists v, a, d ::
      && ToldAs(catalog, texts, (0x6081, 0), v) && ToldAs(catalog, texts, (0x6083, 0), a)
      && ToldAs(catalog, texts, (0x6084, 0), d)
      && v > 0 && a > 0 && d == a
  }

  /** The document tells this value for this parameter. */
  predicate ToldAs(catalog: seq<Parameter>, texts: Texts, key: Key, value: int) {
    exists i :: 0 <= i < |catalog| && catalog[i].key == key && key in texts && ValueOf(catalog[i], texts[key]) == value
  }

  lemma ToldIsDecoded(catalog: seq<Parameter>, texts: Texts, key: Key, value: int)
    requires Distinct(catalog) && (forall i :: 0 <= i < |catalog| ==> catalog[i].key in texts)
    ensures ToldAs(catalog, texts, key, value) <==>
              key in Decoded(catalog, texts) && Decoded(catalog, texts)[key] == value
  {
    hide ValueOf, Distinct;
    DecodedAre(catalog, texts);
  }

  lemma ProfileIsBad(m: Model, texts: Texts)
    requires Distinct(m.catalog) && (forall i :: 0 <= i < |m.catalog| ==> m.catalog[i].key in texts)
    ensures !ProfileAccepts(m.validates, Decoded(m.catalog, texts)) <==> m.validates && BadProfile(m.catalog, texts)
  {
    hide Decoded, ToldAs, Distinct;
    var values := Decoded(m.catalog, texts);
    if m.validates && ProfileAccepts(m.validates, values) {
      ToldIsDecoded(m.catalog, texts, (0x6081, 0), values[(0x6081, 0)]);
      ToldIsDecoded(m.catalog, texts, (0x6083, 0), values[(0x6083, 0)]);
      ToldIsDecoded(m.catalog, texts, (0x6084, 0), values[(0x6084, 0)]);
    }
    if m.validates && !BadProfile(m.catalog, texts) {
      var v, a, d :|
        && ToldAs(m.catalog, texts, (0x6081, 0), v) && ToldAs(m.catalog, texts, (0x6083, 0), a)
        && ToldAs(m.catalog, texts, (0x6084, 0), d) && v > 0 && a > 0 && d == a;
      ToldIsDecoded(m.catalog, texts, (0x6081, 0), v);
      ToldIsDecoded(m.catalog, texts, (0x6083, 0), a);
      ToldIsDecoded(m.catalog, texts, (0x6084, 0), d);
    }
  }

  /** Why a document is refused: another checksum, schema or device, other parameters than
      the model's, one bad text, or a profile that a checking model does not run. */
  ghost predicate Refusable(sum: Checksum, m: Model, doc: Document)
    requires ValidModel(m)
  {
    || doc.digest != sum(doc.schema, doc.identity, doc.values)
    || doc.schema != (if m.identity.model == "f_kr_cmmt" then 2 else 1)
    || doc.identity != m.identity
    || (exists k :: (k in doc.values) != InCatalog(m.catalog, k))
    || (exists i :: 0 <= i < |m.catalog| && m.catalog[i].key in doc.values
                    && BadText(m.catalog[i], doc.values[m.catalog[i].key], TextOf(m.catalog[i], m.od[m.catalog[i].key])))
    || (m.validates && BadProfile(m.catalog, doc.values))
  }

  /** The texts of a document with exactly the model's parameters are all acceptable unless
      one of them is bad. */
  lemma TextsAreBad(m: Model, texts: Texts)
    requires ValidModel(m) && (forall k :: (k in texts) == InCatalog(m.catalog, k))
    ensures texts.Keys == TextsOf(m.catalog, m.od).Keys
    ensures forall i :: 0 <= i < |m.catalog| ==> m.catalog[i].key in texts
    ensures !AllAcceptable(m.catalog, texts, TextsOf(m.catalog, m.od)) <==>
              exists i :: 0 <= i < |m.catalog| && m.catalog[i].key in texts
                          && BadText(m.catalog[i], texts[m.catalog[i].key], TextOf(m.catalog[i], m.od[m.catalog[i].key]))
  {
    hide TextOf, InRange, Acceptable, BadText;
    var originals := TextsOf(m.catalog, m.od);
    TextsAre(m.catalog, m.od);
    forall i | 0 <= i < |m.catalog|
      ensures var p := m.catalog[i];
              && p.key in texts
              && (BadText(p, texts[p.key], TextOf(p, m.od[p.key])) <==> !Acceptable(p, texts[p.key], originals[p.key]))
    {
      assert InCatalog(m.catalog, m.catalog[i].key);
      BadIsUnacceptable(m.catalog[i], texts[m.catalog[i].key], originals[m.catalog[i].key]);
    }
  }

  lemma KeysAreCatalog(m: Model, texts: Texts)
    requires ValidModel(m)
    ensures texts.Keys == TextsOf(m.catalog, m.od).Keys <==> forall k :: (k in texts) == InCatalog(m.catalog, k)
  {
    hide TextOf, InRange, InCatalog;
    TextsAre(m.catalog, m.od);
    var originals := TextsOf(m.catalog, m.od);
    if texts.Keys == originals.Keys {
      assert forall k :: k in texts <==> k in originals;
    }
  }

  /** A snapshot loads exactly when it is a document with none of these faults. */
  lemma LoadsUnlessFaulty(sum: Checksum, m: Model, content: Content)
    requires ValidModel(m)
    ensures Loads(sum, m, content) <==> content.Json? && !Refusable(sum, m, content.doc)
  {
    hide TextOf, TextsOf, Encodable, Distinct, AllAcceptable, ProfileAccepts, BadProfile, BadText, InCatalog, Decoded;
    if content.Json? {
      var doc := content.doc;
      KeysAreCatalog(m, doc.values);
      if forall k :: (k in doc.values) == InCatalog(m.catalog, k) {
        TextsAreBad(m, doc.values);
        ProfileIsBad(m, doc.values);
      }
    }
  }

  // ---- The catalogue of the F-KR model ----

  /** Negative velocity limit, the one float among the persistent parameters. */
  const LIMIT: Key := (0x2183, 0x0C)

  const INFINITE: int := 0x7F80_0000

  /** The persistent parameters in their order, the profile velocity last. */
  const FKR_CATALOG: seq<Parameter> := [
    Parameter((0x216E, 1), Integer(UINT16), true), Parameter((0x2194, 1), Integer(INT8), true),
    Parameter((0x2194, 2), Integer(INT8), true), Parameter((0x2194, 3), Integer(INT8), true),
    Parameter((0x2194, 4), Integer(INT8), true), Parameter((0x607D, 1), Integer(INT32), false),
    Parameter((0x607D, 2), Integer(INT32), false), Parameter((0x6067, 0), Integer(UINT32), false),
    Parameter((0x6068, 0), Integer(UINT16), false), Parameter((0x607F, 0), Integer(UINT32), false),
    Parameter(LIMIT, Float32, false), Parameter((0x6083, 0), Integer(UINT32), false),
    Parameter((0x6084, 0), Integer(UINT32), false), Parameter((0x6098, 0), Integer(INT8), false),
    Parameter((0x6099, 1), Integer(UINT32), false), Parameter((0x6099, 2), Integer(UINT32), false),
    Parameter((0x609A, 0), Integer(UINT32), false), Parameter((0x60C5, 0), Integer(UINT32), false),
    Parameter((0x60C6, 0), Integer(UINT32), false), Parameter((0x60A4, 1), Integer(UINT32), false),
    Parameter((0x6081, 0), Integer(UINT32), false)]

  const LIMIT_AT: nat := 10

  /** The values of the linear preset, in the order of the catalogue; -0.2 as float bits. */
  const LINEAR_MM: seq<int> := [
    256, 6, 3, 3, 3, -1000000, 1000000, 20, 20, 200, 0xBE4C_CCCD, 1000, 1000, 37, 100, 50, 100, 2000, 2000, 100000, 0]

  function Assigned(catalog: seq<Parameter>, values: seq<int>): Values
    requires |values| == |catalog|
  {
    if catalog == [] then map[]
    else
      var n := |catalog| - 1;
      Assigned(catalog[..n], values[..n])[catalog[n].key := values[n]]
  }

  lemma {:induction false} AssignedAt(catalog: seq<Parameter>, values: seq<int>, i: nat)
    requires |values| == |catalog| && Distinct(catalog) && i < |catalog|
    ensures catalog[i].key in Assigned(catalog, values) && Assigned(catalog, values)[catalog[i].key] == values[i]
  {
    var n := |catalog| - 1;
    if i < n {
      AssignedAt(catalog[..n], values[..n], i);
      assert catalog[i].key != catalog[n].key;
    }
  }

  predicate IsFKr(m: Model) {
    m.identity.model == "f_kr_cmmt" && m.catalog == FKR_CATALOG && !m.validates
  }

  function LinearModel(name: string): Model {
    Model(name, Identity("cia402-drive", "f_kr_cmmt", "linear"), FKR_CATALOG, false, Assigned(FKR_CATALOG, LINEAR_MM))
  }

  lemma CatalogIsDistinct()
    ensures Distinct(FKR_CATALOG) && |FKR_CATALOG| == |LINEAR_MM| == 21
  {
  }

  lemma PresetInRange(i: nat)
    requires i < |FKR_CATALOG|
    ensures ValidKind(FKR_CATALOG[i].kind) && |LINEAR_MM| == |FKR_CATALOG|
    ensures InRange(TypeOf(FKR_CATALOG[i].kind), LINEAR_MM[i])
  {
    SpanOfFour();
    assert Span(1) == 256;
    assert Span(2) == 65536;
  }

  lemma LinearModelIsValid(name: string)
    ensures ValidModel(LinearModel(name)) && IsFKr(LinearModel(name))
  {
    hide Distinct, InRange, ValidKind, Assigned;
    CatalogIsDistinct();
    var od := Assigned(FKR_CATALOG, LINEAR_MM);
    forall i | 0 <= i < |FKR_CATALOG|
      ensures var p := FKR_CATALOG[i]; p.key in od && ValidKind(p.kind) && InRange(TypeOf(p.kind), od[p.key])
    {
      AssignedAt(FKR_CATALOG, LINEAR_MM, i);
      PresetInRange(i);
    }
  }

  /** The linear preset saves a snapshot that loads again. */
  lemma PresetLoads(sum: Checksum, name: string)
    ensures var m := LinearModel(name); ValidModel(m) && Savable(m) && Loads(sum, m, Json(DocumentOf(sum, m)))
  {
    hide Distinct, Encodable, TextsOf, Assigned, Loads, Selected;
    var m := LinearModel(name);
    LinearModelIsValid(name);
    CatalogIsDistinct();
    forall i | 0 <= i < |FKR_CATALOG|
      ensures FKR_CATALOG[i].key in m.od && Finite(FKR_CATALOG[i].kind, m.od[FKR_CATALOG[i].key])
    {
      AssignedAt(FKR_CATALOG, LINEAR_MM, i);
      PresetIsFinite(i);
    }
    SavedLoadsExactlyWhenFinite(sum, m, m);
  }

  lemma PresetIsFinite(i: nat)
    requires i < |FKR_CATALOG|
    ensures |LINEAR_MM| == |FKR_CATALOG| && Finite(FKR_CATALOG[i].kind, LINEAR_MM[i])
  {
  }

  /** The parameter that can be lost: on any F-KR model an infinite negative velocity limit
      is saved like every other value, and no instance of the device loads the snapshot. */
  lemma InfiniteLimitIsRefused(sum: Checksum, m: Model, other: Model)
    requires ValidModel(m) && IsFKr(m) && ValidModel(other) && SameDevice(m, other)
    ensures var infinite := m.(od := m.od[LIMIT := INFINITE]);
            Savable(infinite) && !Loads(sum, other, Json(DocumentOf(sum, infinite)))
  {
    hide TextsOf, Decoded, Distinct, InRange;
    var infinite := m.(od := m.od[LIMIT := INFINITE]);
    InfiniteIsValid(m);
    LimitIsFloat();
    forall i | 0 <= i < |m.catalog| && m.catalog[i].readOnly
      ensures infinite.od[m.catalog[i].key] == m.od[m.catalog[i].key]
    {
      KeysDiffer(m.catalog, i, LIMIT_AT);
    }
    assert !Finite(infinite.catalog[LIMIT_AT].kind, infinite.od[LIMIT]);
    SavedLoadsExactlyWhenFinite(sum, infinite, other);
  }

  lemma LimitIsFloat()
    ensures FKR_CATALOG[LIMIT_AT] == Parameter(LIMIT, Float32, false)
  {
  }

  lemma InfiniteIsValid(m: Model)
    requires ValidModel(m) && IsFKr(m)
    ensures ValidModel(m.(od := m.od[LIMIT := INFINITE]))
  {
    hide Distinct, InRange;
    var od := m.od[LIMIT := INFINITE];
    InfiniteInRange();
    LimitIsFloat();
    forall i | 0 <= i < |m.catalog|
      ensures m.catalog[i].key in od && InRange(TypeOf(m.catalog[i].kind), od[m.catalog[i].key])
    {
      if i != LIMIT_AT {
        KeysDiffer(m.catalog, i, LIMIT_AT);
      }
    }
  }

  lemma KeysDiffer(catalog: seq<Parameter>, i: nat, k: nat)
    requires Distinct(catalog) && i < |catalog| && k < |catalog| && i != k
    ensures catalog[i].key != catalog[k].key
  {
  }

  lemma InfiniteInRange()
    ensures InRange(UINT32, INFINITE)
  {
    SpanOfFour();
  }

  // ---- The store as an object ----

  datatype Loading = Missing | Refused | Loaded

  /** The object dictionary of one model. */
  class OdModel {
    const name: string
    const identity: Identity
    const catalog: seq<Parameter>
    const validates: bool
    var od: Values

    constructor (m: Model)
      ensures View() == m
    {
      name, identity, catalog, validates, od := m.name, m.identity, m.catalog, m.validates, m.od;
    }

    ghost function View(): Model
      reads this
    {
      Model(name, identity, catalog, validates, od)
    }
  }

  class Store {
    const checksum: Checksum
    var files: Directory<Content>
    var locked: bool

    constructor (checksum: Checksum, files: Directory<Content>)
      ensures this.checksum == checksum && this.files == files && locked
    {
      this.checksum, this.files, locked := checksum, files, true;
    }

    /** Everything is decoded and checked before the first value is written. */
    method Load(model: OdModel) returns (r: Loading)
      requires ValidModel(model.View())
      modifies model
      ensures var path := PathOf(model.name);
              if path !in files then r == Missing && model.View() == old(model.View())
              else if !Loads(checksum, old(model.View()), files[path].content) then
                r == Refused && model.View() == old(model.View())
              else r == Loaded && model.View() == LoadedModel(old(model.View()), files[path].content.doc)
    {
      hide Acceptable, TextOf, ValueOf, Finite, InRange, ProfileAccepts, TextsOf, AllAcceptable, Decoded;
      var path := PathOf(model.name);
      if path !in files {
        return Missing;
      }
      if !files[path].content.Json? {
        return Refused;
      }
      var doc := files[path].content.doc;
      ghost var m := model.View();
      if !Sealed(checksum, doc) || doc.schema != SchemaFor(model.identity) || doc.identity != model.identity {
        return Refused;
      }
      var expected := TextsOf(model.catalog, model.od);
      if doc.values.Keys != expected.Keys {
        return Refused;
      }
      TextsAre(model.catalog, model.od);
      var ok, decoded := DecodeAll(model.catalog, doc.values, expected);
      if !ok {
        return Refused;
      }
      if !ProfileAccepts(model.validates, decoded) {
        return Refused;
      }
      WriteAll(model, doc.values);
      return Loaded;
    }

    /** Stop at the first text that is not acceptable. */
    static method DecodeAll(catalog: seq<Parameter>, values: Texts, expected: Texts) returns (ok: bool, decoded: Values)
      requires forall i :: 0 <= i < |catalog| ==> catalog[i].key in values && catalog[i].key in expected
      ensures ok == AllAcceptable(catalog, values, expected)
      ensures ok ==> decoded == Decoded(catalog, values)
    {
      hide Acceptable, ValueOf;
      decoded := map[];
      for i := 0 to |catalog|
        invariant AllAcceptable(catalog[..i], values, expected) && decoded == Decoded(catalog[..i], values)
      {
        var p := catalog[i];
        if !Acceptable(p, values[p.key], expected[p.key]) {
          assert !AllAcceptable(catalog, values, expected);
          return false, decoded;
        }
        decoded := decoded[p.key := ValueOf(p, values[p.key])];
        assert catalog[..i + 1][..i] == catalog[..i];
      }
      assert catalog[..|catalog|] == catalog;
      ok := true;
    }

    method WriteAll(model: OdModel, values: Texts)
      requires forall i :: 0 <= i < |model.catalog| ==> model.catalog[i].key in values
      modifies model
      ensures model.od == old(model.od) + Decoded(model.catalog, values)
    {
      hide ValueOf;
      var catalog := model.catalog;
      for i := 0 to |catalog|
        invariant model.od == old(model.od) + Decoded(catalog[..i], values)
      {
        var p := catalog[i];
        model.od := model.od[p.key := ValueOf(p, values[p.key])];
        assert catalog[..i + 1][..i] == catalog[..i];
      }
      assert catalog[..|catalog|] == catalog;
    }

    /** Checks first, then the file operations; the one numbered `fails` raises. */
    method Save(model: OdModel, temporary: Name, fails: nat) returns (ok: bool)
      modifies this`files
      ensures var m := model.View();
              if !locked || !Savable(m) then !ok && files == old(files)
              else ok == (fails >= 4)
                   && files == ApplyAll(old(files), Attempt(PathOf(m.name), temporary,
                                                            Json(DocumentOf(checksum, m)), fails))
    {
      hide Distinct, Encodable, ProfileAccepts, TextsOf, Selected, ApplyAll;
      var m := Model(model.name, model.identity, model.catalog, model.validates, model.od);
      if !locked || !Savable(m) {
        return false;
      }
      RunOps(Replacing(PathOf(m.name), temporary, Json(DocumentOf(checksum, m))), fails);
      AttemptEnds(old(files), PathOf(m.name), temporary, Json(DocumentOf(checksum, m)), fails);
      files := Apply(files, Unlink(temporary));
      return fails >= 4;
    }

    /** Operations in order, up to the one that raises. */
    method RunOps(ops: seq<Op<Content>>, fails: nat)
      modifies this`files
      ensures files == ApplyAll(old(files), ops[..if fails < |ops| then fails else |ops|])
    {
      hide Apply;
      for i := 0 to if fails < |ops| then fails else |ops|
        invariant files == ApplyAll(old(files), ops[..i])
      {
        files := Apply(files, ops[i]);
        assert ops[..i + 1][..i] == ops[..i];
      }
    }
  }

  /** A save never leaves a torn snapshot: whatever operation raises and wherever a crash
      hits, the target is the old snapshot or the complete new one. */
  lemma SaveIsAtomic(sum: Checksum, d: Directory<Content>, m: Model, temporary: Name, fails: nat,
                     found: Directory<Content>)
    requires Savable(m) && temporary != PathOf(m.name)
    requires PathOf(m.name) in d ==> d[PathOf(m.name)].synced
    requires Crash(d, Attempt(PathOf(m.name), temporary, Json(DocumentOf(sum, m)), fails), found)
    ensures OldOrNew(d, found, PathOf(m.name), Json(DocumentOf(sum, m)))
    ensures OthersKept(d, found, PathOf(m.name), temporary)
  {
    hide OldOrNew, Attempt, TextsOf;
    ReplacingIsAtomic(d, PathOf(m.name), temporary, Json(DocumentOf(sum, m)), fails, found);
  }
}
