/** The offline migration of an F-KR snapshot from schema 1 to schema 2, which adds the
    profile velocity that schema 1 did not have. */
module Migration {
  import opened Words
  import opened Wrappers
  import opened Codec
  import opened HexCodec
  import opened FileSystem
  import opened ParameterStore

  const VELOCITY: Key := (0x6081, 0)

  /** File operations were made; ok tells that none of them raised. */
  datatype Migrated = Untouched | Already(loaded: Model) | Changed(ops: seq<Op<Content>>, loaded: Model, ok: bool)

  /** What the file system does in one migration: the name of the temporary file, what an
      unfinished write of the backup leaves, and which file operation raises. */
  datatype Disk = Disk(temporary: Name, partial: Content, fails: nat)

  function BackupOf(name: string): Name {
    PathOf(name) + ".schema1.bak"
  }

  /** The model of an F-KR device with the profile velocity in its catalog. */
  predicate Migratable(m: Model) {
    && ValidModel(m) && m.identity.model == "f_kr_cmmt" && !m.validates
    && exists i :: 0 <= i < |m.catalog| && m.catalog[i] == Parameter(VELOCITY, Integer(UINT32), false)
  }

  function VelocityText(value: int): string {
    TextOf(Parameter(VELOCITY, Integer(UINT32), false), value)
  }

  /** The document of schema 2: every old value and the given velocity. */
  function Upgraded(sum: Checksum, doc: Document, value: int): Document {
    var values := doc.values[VELOCITY := VelocityText(value)];
    Document(2, doc.identity, values, sum(2, doc.identity, values))
  }

  predicate Legacy(sum: Checksum, m: Model, doc: Document)
    requires ValidModel(m)
  {
    && Sealed(sum, doc) && doc.schema == 1 && doc.identity == m.identity
    && doc.values.Keys == TextsOf(m.catalog, m.od).Keys - {VELOCITY}
  }

  /** The original is copied beside the target, unless a copy is there already: the backup
      is created, written and synchronised. */
  function KeepOps(d: Directory<Content>, backup: Name, original: Content, partial: Content): seq<Op<Content>> {
    if backup in d then [] else [Fill(backup, partial), Fill(backup, original), Sync(backup)]
  }

  /** The file operations up to the one that raises: a backup is left as it is, a save
      removes its temporary file. */
  function MigrateOps(d: Directory<Content>, path: Name, backup: Name, original: Content, content: Content,
                      disk: Disk): seq<Op<Content>>
  {
    var keep := KeepOps(d, backup, original, disk.partial);
    if disk.fails < |keep| then keep[..disk.fails]
    else keep + Attempt(path, disk.temporary, content, disk.fails - |keep|)
  }

  predicate Completes(d: Directory<Content>, backup: Name, fails: nat) {
    fails >= if backup in d then 4 else 7
  }

  /** Nothing is written until the upgraded document passed the strict load. */
  function Migrate(sum: Checksum, d: Directory<Content>, m: Model, value: int, disk: Disk): Migrated
    requires ValidModel(m)
  {
    var path, backup := PathOf(m.name), BackupOf(m.name);
    if m.identity.model != "f_kr_cmmt" || !(0 <= value <= 0xffff_ffff) || path !in d || d[path].content.Bytes?
    then Untouched
    else
      var original := d[path].content;
      if original.doc.schema == 2 then
        if Loads(sum, m, original) then Already(LoadedModel(m, original.doc)) else Untouched
      else if !Legacy(sum, m, original.doc) then Untouched
      else
        var upgraded := Upgraded(sum, original.doc, value);
        if !Loads(sum, m, Json(upgraded)) then Untouched
        else if backup in d && d[backup].content != original then Untouched
        else
          LoadedIsValid(sum, m, Json(upgraded));
          var loaded := LoadedModel(m, upgraded);
          Changed(MigrateOps(d, path, backup, original, Json(DocumentOf(sum, loaded)), disk), loaded,
                  Completes(d, backup, disk.fails))
  }

  // ---- A loaded model is valid and equals what was in the document ----

  lemma ValueInRange(p: Parameter, raw: string)
    requires ValidKind(p.kind) && ParseHex(raw, TypeOf(p.kind).size).Some?
    ensures InRange(TypeOf(p.kind), ValueOf(p, raw))
  {
    hide Encode, Decode, InRange, LowerAll, Unhex;
    var data := ParseHex(raw, TypeOf(p.kind).size).value;
    UnhexSize(LowerAll(raw), TypeOf(p.kind).size);
    EncodeDecoded(TypeOf(p.kind), data);
    DecodeDefined(TypeOf(p.kind), data);
  }

  lemma DecodeDefined(t: IntType, data: Octets)
    ensures |data| >= t.size ==> Decode(t, data).Some?
  {
  }

  lemma UnhexSize(text: string, size: nat)
    ensures Unhex(text, size).Some? ==> |Unhex(text, size).value| == size
  {
  }

  /** Every catalog entry of a loaded model has the value its text decodes to. */
  lemma LoadedIsValid(sum: Checksum, m: Model, content: Content)
    requires ValidModel(m) && Loads(sum, m, content)
    ensures var back := LoadedModel(m, content.doc);
            && ValidModel(back)
            && AllFinite(back)
            && SameDevice(back, m)
            && (forall i :: 0 <= i < |m.catalog| ==>
                  m.catalog[i].key in content.doc.values
                  && back.od[m.catalog[i].key] == ValueOf(m.catalog[i], content.doc.values[m.catalog[i].key]))
  {
    hide ValueOf, InRange, ParseHex, Finite, TextOf, TextsOf, Decoded, ProfileAccepts;
    var back, values := LoadedModel(m, content.doc), content.doc.values;
    DecodedAre(m.catalog, values);
    TextsAre(m.catalog, m.od);
    forall i | 0 <= i < |m.catalog|
      ensures var p := m.catalog[i];
              && p.key in back.od && p.key in values && back.od[p.key] == ValueOf(p, values[p.key])
              && InRange(TypeOf(p.kind), back.od[p.key]) && Finite(p.kind, back.od[p.key])
              && (p.readOnly ==> back.od[p.key] == m.od[p.key])
    {
      var p := m.catalog[i];
      assert InCatalog(m.catalog, p.key);
      ValueInRange(p, values[p.key]);
      ValueOfText(p, m.od[p.key]);
    }
  }

  // ---- What a successful migration leaves ----

  lemma MigratedFile(sum: Checksum, d: Directory<Content>, m: Model, value: int, disk: Disk)
    requires ValidModel(m) && disk.temporary !in {PathOf(m.name), BackupOf(m.name)}
    requires Migrate(sum, d, m, value, disk).Changed? && Migrate(sum, d, m, value, disk).ok
    ensures var r := Migrate(sum, d, m, value, disk);
            var e := ApplyAll(d, r.ops);
            && ValidModel(r.loaded) && PathOf(m.name) in e && BackupOf(m.name) in e
            && e[PathOf(m.name)].content == Json(DocumentOf(sum, r.loaded))
            && e[BackupOf(m.name)].content == d[PathOf(m.name)].content
  {
    hide Loads, DocumentOf, LoadedModel, Upgraded, Legacy, KeepOps, ApplyAll, Attempt, ValidModel;
    var r := Migrate(sum, d, m, value, disk);
    var path, backup := PathOf(m.name), BackupOf(m.name);
    LoadedIsValid(sum, m, Json(Upgraded(sum, d[path].content.doc, value)));
    CompleteOps(d, path, backup, d[path].content, Json(DocumentOf(sum, r.loaded)), disk);
  }

  /** Completed, the target is new and the backup holds the original. */
  lemma CompleteOps(d: Directory<Content>, path: Name, backup: Name, original: Content, content: Content, disk: Disk)
    requires path != backup && disk.temporary !in {path, backup} && Completes(d, backup, disk.fails)
    requires backup in d ==> d[backup].content == original
    ensures var e := ApplyAll(d, MigrateOps(d, path, backup, original, content, disk));
            && path in e && e[path].content == content && backup in e && e[backup].content == original
  {
    hide Attempt;
    var keep := KeepOps(d, backup, original, disk.partial);
    var save := Attempt(path, disk.temporary, content, disk.fails - |keep|);
    ApplyAllAppend(d, keep, save);
    KeepStates(d, backup, original, disk.partial, |keep|);
    assert keep[..|keep|] == keep;
    LateAttempt(path, disk.temporary, content, disk.fails - |keep|);
    ReplacingCompletes(ApplyAll(d, keep), path, disk.temporary, content);
  }

  lemma LateAttempt(path: Name, temporary: Name, content: Content, n: nat)
    requires n >= 4
    ensures Attempt(path, temporary, content, n) == Attempt(path, temporary, content, 4)
  {
  }

  lemma KeepStates(d: Directory<Content>, backup: Name, original: Content, partial: Content, k: nat)
    requires k <= |KeepOps(d, backup, original, partial)|
    ensures ApplyAll(d, KeepOps(d, backup, original, partial)[..k])
            == (if k == 0 then d
                else if k == 1 then d[backup := File(partial, false)]
                else d[backup := File(original, k == 3)])
  {
    var keep := KeepOps(d, backup, original, partial);
    assert keep[..0] == [];
    if k > 0 {
      KeepStates(d, backup, original, partial, k - 1);
      assert keep[..k][..k - 1] == keep[..k - 1];
    }
  }

  /** After a successful migration a fresh instance of the device loads: every old value as
      the old text told it, and the given profile velocity. */
  lemma MigratedLoads(sum: Checksum, d: Directory<Content>, m: Model, value: int, disk: Disk)
    requires Migratable(m) && disk.temporary !in {PathOf(m.name), BackupOf(m.name)}
    requires Migrate(sum, d, m, value, disk).Changed? && Migrate(sum, d, m, value, disk).ok
    ensures var e := ApplyAll(d, Migrate(sum, d, m, value, disk).ops);
            && PathOf(m.name) in e && Loads(sum, m, e[PathOf(m.name)].content)
            && var texts, back := d[PathOf(m.name)].content.doc.values, LoadedModel(m, e[PathOf(m.name)].content.doc);
               && back.od[VELOCITY] == value
               && forall i :: 0 <= i < |m.catalog| && m.catalog[i].key != VELOCITY ==>
                    m.catalog[i].key in texts
                    && back.od[m.catalog[i].key] == ValueOf(m.catalog[i], texts[m.catalog[i].key])
  {
    hide ValueOf, TextOf, TextsOf, InRange, AllAcceptable, AllFinite, Decoded, ApplyAll, MigrateOps, Finite;
    var r := Migrate(sum, d, m, value, disk);
    var texts := d[PathOf(m.name)].content.doc.values;
    var upgraded := Upgraded(sum, d[PathOf(m.name)].content.doc, value);
    MigratedFile(sum, d, m, value, disk);
    LoadedIsValid(sum, m, Json(upgraded));
    SavedLoadsExactlyWhenFinite(sum, r.loaded, m);
    LoadedIsValid(sum, m, Json(DocumentOf(sum, r.loaded)));
    SavedValuesDecode(sum, r.loaded);
    DecodedAre(m.catalog, DocumentOf(sum, r.loaded).values);
    forall i | 0 <= i < |m.catalog|
      ensures LoadedModel(m, DocumentOf(sum, r.loaded)).od[m.catalog[i].key] == r.loaded.od[m.catalog[i].key]
    {
      assert InCatalog(m.catalog, m.catalog[i].key);
    }
    VelocityDecodes(value);
    var i :| 0 <= i < |m.catalog| && m.catalog[i] == Parameter(VELOCITY, Integer(UINT32), false);
    assert upgraded.values[VELOCITY] == VelocityText(value);
  }

  lemma VelocityDecodes(value: int)
    requires 0 <= value <= 0xffff_ffff
    ensures ValueOf(Parameter(VELOCITY, Integer(UINT32), false), VelocityText(value)) == value
  {
    hide TextOf, ValueOf;
    SpanOfFour();
    ValueOfText(Parameter(VELOCITY, Integer(UINT32), false), value);
  }

  /** A second migration, with any value and on any disk, changes nothing. */
  lemma MigrationIsIdempotent(sum: Checksum, d: Directory<Content>, m: Model, value: int, disk: Disk,
                              again: int, other: Disk)
    requires Migratable(m) && disk.temporary !in {PathOf(m.name), BackupOf(m.name)}
    requires Migrate(sum, d, m, value, disk).Changed? && Migrate(sum, d, m, value, disk).ok
    requires 0 <= again <= 0xffff_ffff
    ensures Migrate(sum, ApplyAll(d, Migrate(sum, d, m, value, disk).ops), m, again, other).Already?
  {
    hide Loads, ApplyAll, MigrateOps, LoadedModel, Legacy, Upgraded;
    MigratedLoads(sum, d, m, value, disk);
    MigratedFile(sum, d, m, value, disk);
    SchemaTwo(sum, Migrate(sum, d, m, value, disk).loaded, m);
  }

  lemma SchemaTwo(sum: Checksum, loaded: Model, m: Model)
    requires ValidModel(loaded)
    ensures DocumentOf(sum, loaded).schema == SchemaOf(loaded)
    ensures forall doc: Document {:trigger LoadedModel(m, doc)} :: LoadedModel(m, doc).identity == m.identity
  {
  }

  // ---- Old snapshots migrate ----

  /** What schema 1 saved of a device: every parameter but the profile velocity. */
  function LegacyDocument(sum: Checksum, m: Model): Document
    requires ValidModel(m)
  {
    var values := TextsOf(m.catalog, m.od) - {VELOCITY};
    Document(1, m.identity, values, sum(1, m.identity, values))
  }

  /** The old device with the given velocity. */
  function WithVelocity(m: Model, value: int): Model {
    m.(od := m.od[VELOCITY := value])
  }

  lemma VelocityIsUnique(m: Model, i: nat)
    requires Migratable(m) && i < |m.catalog| && m.catalog[i].key == VELOCITY
    ensures m.catalog[i] == Parameter(VELOCITY, Integer(UINT32), false)
  {
    var k :| 0 <= k < |m.catalog| && m.catalog[k] == Parameter(VELOCITY, Integer(UINT32), false);
    assert m.catalog[i].key == m.catalog[k].key;
  }

  lemma VelocityFits(value: int)
    requires 0 <= value <= 0xffff_ffff
    ensures InRange(UINT32, value)
  {
    SpanOfFour();
  }

  lemma WithVelocityIsValid(m: Model, value: int)
    requires Migratable(m) && AllFinite(m) && 0 <= value <= 0xffff_ffff
    ensures var n := WithVelocity(m, value); ValidModel(n) && AllFinite(n)
  {
    hide InRange, Distinct, Migratable;
    var n := WithVelocity(m, value);
    VelocityFits(value);
    MigratableIsValid(m);
    forall i | 0 <= i < |m.catalog|
      ensures var p := m.catalog[i];
              p.key in n.od && ValidKind(p.kind) && InRange(TypeOf(p.kind), n.od[p.key]) && Finite(p.kind, n.od[p.key])
    {
      if m.catalog[i].key == VELOCITY {
        VelocityIsUnique(m, i);
      }
    }
  }

  lemma MigratableIsValid(m: Model)
    requires Migratable(m)
    ensures ValidModel(m) && !m.validates && m.identity.model == "f_kr_cmmt" && InCatalog(m.catalog, VELOCITY)
  {
    hide InRange, Distinct;
  }

  /** Adding the velocity to the old texts gives the document of the device with it. */
  lemma UpgradedIsSaved(sum: Checksum, m: Model, value: int)
    requires Migratable(m) && AllFinite(m) && 0 <= value <= 0xffff_ffff
    ensures var n := WithVelocity(m, value);
            ValidModel(n) && Upgraded(sum, LegacyDocument(sum, m), value) == DocumentOf(sum, n)
  {
    hide InRange, Distinct, TextOf, TextsOf, Migratable, AllFinite;
    var n := WithVelocity(m, value);
    WithVelocityIsValid(m, value);
    MigratableIsValid(m);
    TextsAre(m.catalog, m.od);
    TextsAre(n.catalog, n.od);
    var upgraded, saved := Upgraded(sum, LegacyDocument(sum, m), value).values, TextsOf(n.catalog, n.od);
    assert InCatalog(m.catalog, VELOCITY);
    forall k | k in saved
      ensures k in upgraded && upgraded[k] == saved[k]
    {
      var i :| 0 <= i < |m.catalog| && m.catalog[i].key == k;
      if k == VELOCITY {
        VelocityIsUnique(m, i);
      }
    }
    assert upgraded.Keys == saved.Keys;
    assert upgraded == saved;
  }

  /** Whatever finite values a device saved under schema 1, its snapshot migrates: unless a
      different backup is in the way or the disk fails, every file operation is made. */
  lemma LegacyMigrates(sum: Checksum, d: Directory<Content>, m: Model, older: Model, value: int, disk: Disk)
    requires Migratable(m) && Migratable(older) && SameDevice(older, m) && AllFinite(older)
    requires PathOf(m.name) in d && d[PathOf(m.name)].content == Json(LegacyDocument(sum, older))
    requires BackupOf(m.name) in d ==> d[BackupOf(m.name)].content == d[PathOf(m.name)].content
    requires 0 <= value <= 0xffff_ffff && disk.fails >= 7
    ensures Migrate(sum, d, m, value, disk).Changed? && Migrate(sum, d, m, value, disk).ok
  {
    hide InRange, Distinct, TextOf, TextsOf, Migratable, AllFinite, Loads, MigrateOps, LoadedModel, Upgraded;
    var n := WithVelocity(older, value);
    MigratableIsValid(m);
    MigratableIsValid(older);
    WithVelocityIsValid(older, value);
    UpgradedIsSaved(sum, older, value);
    KeepsDevice(older, m, value);
    SavedLoadsExactlyWhenFinite(sum, n, m);
    LegacyKeys(older, m);
  }

  lemma KeepsDevice(older: Model, m: Model, value: int)
    requires Migratable(m) && Migratable(older) && SameDevice(older, m)
    requires ValidModel(WithVelocity(older, value))
    ensures SameDevice(WithVelocity(older, value), m) && Savable(WithVelocity(older, value))
  {
    hide InRange, Distinct, Migratable;
    MigratableIsValid(older);
    forall i | 0 <= i < |m.catalog| && m.catalog[i].readOnly
      ensures m.catalog[i].key != VELOCITY
    {
      if m.catalog[i].key == VELOCITY {
        VelocityIsUnique(m, i);
      }
    }
  }

  lemma LegacyKeys(older: Model, m: Model)
    requires ValidModel(older) && ValidModel(m) && older.catalog == m.catalog
    ensures TextsOf(older.catalog, older.od).Keys == TextsOf(m.catalog, m.od).Keys
  {
    hide InRange, Distinct, TextOf, TextsOf, InCatalog;
    TextsAre(older.catalog, older.od);
    TextsAre(m.catalog, m.od);
  }

  /** The whole migration of an old device: a fresh instance then loads every value the old
      one had, and the given profile velocity. */
  lemma OldValuesSurvive(sum: Checksum, d: Directory<Content>, m: Model, older: Model, value: int, disk: Disk)
    requires Migratable(m) && Migratable(older) && SameDevice(older, m) && AllFinite(older)
    requires PathOf(m.name) in d && d[PathOf(m.name)].content == Json(LegacyDocument(sum, older))
    requires BackupOf(m.name) in d ==> d[BackupOf(m.name)].content == d[PathOf(m.name)].content
    requires 0 <= value <= 0xffff_ffff && disk.fails >= 7 && disk.temporary !in {PathOf(m.name), BackupOf(m.name)}
    ensures Migrate(sum, d, m, value, disk).Changed?
    ensures var e := ApplyAll(d, Migrate(sum, d, m, value, disk).ops);
            && PathOf(m.name) in e && Loads(sum, m, e[PathOf(m.name)].content)
            && var back := LoadedModel(m, e[PathOf(m.name)].content.doc);
               && back.od[VELOCITY] == value
               && forall i :: 0 <= i < |m.catalog| && m.catalog[i].key != VELOCITY ==>
                    back.od[m.catalog[i].key] == older.od[m.catalog[i].key]
  {
    hide InRange, Distinct, TextOf, TextsOf, Migratable, AllFinite, Loads, Migrate, LoadedModel, ValueOf, ParseHex;
    LegacyMigrates(sum, d, m, older, value, disk);
    MigratedLoads(sum, d, m, value, disk);
    MigratableIsValid(older);
    TextsAre(older.catalog, older.od);
    forall i | 0 <= i < |m.catalog| && m.catalog[i].key != VELOCITY
      ensures ValueOf(m.catalog[i], LegacyDocument(sum, older).values[m.catalog[i].key]) == older.od[m.catalog[i].key]
    {
      ValueOfText(older.catalog[i], older.od[older.catalog[i].key]);
    }
  }

  // ---- Errors and crashes ----

  /** The original snapshot is still the target, or complete in the backup. */
  predicate OriginalKept(original: Content, found: Directory<Content>, path: Name, backup: Name) {
    || (path in found && found[path].content == original)
    || (backup in found && found[backup].content == original)
  }

  ghost predicate EveryCrashKeeps(d: Directory<Content>, ops: seq<Op<Content>>, original: Content,
                                  path: Name, backup: Name) {
    forall found :: Crash(d, ops, found) ==> OriginalKept(original, found, path, backup)
  }

  /** Three names, and a backup that is a copy of the target if it is there. */
  predicate Laid(d: Directory<Content>, path: Name, backup: Name, temporary: Name) {
    path in d && path != backup && temporary !in {path, backup}
    && (backup in d ==> d[backup].content == d[path].content)
  }

  /** While the backup is made the target is not touched. */
  lemma KeepLeavesTarget(d: Directory<Content>, path: Name, backup: Name, partial: Content, k: nat)
    requires path in d && path != backup && k <= |KeepOps(d, backup, d[path].content, partial)|
    ensures var e := ApplyAll(d, KeepOps(d, backup, d[path].content, partial)[..k]); path in e && e[path] == d[path]
  {
    hide KeepOps;
    KeepStates(d, backup, d[path].content, partial, k);
  }

  /** Once it is made, it holds the original. */
  lemma KeepHasBackup(d: Directory<Content>, path: Name, backup: Name, temporary: Name, partial: Content)
    requires Laid(d, path, backup, temporary)
    ensures var e := ApplyAll(d, KeepOps(d, backup, d[path].content, partial));
            && path in e && e[path] == d[path] && backup in e && e[backup].content == d[path].content
            && (if backup in d then e == d else e[backup].synced)
  {
    var keep := KeepOps(d, backup, d[path].content, partial);
    assert keep[..|keep|] == keep;
    KeepStates(d, backup, d[path].content, partial, |keep|);
  }

  /** Whichever file operation raises, the original is still there afterwards. */
  lemma OpsKeepOriginal(d: Directory<Content>, path: Name, backup: Name, content: Content, disk: Disk)
    requires Laid(d, path, backup, disk.temporary)
    ensures var ops := MigrateOps(d, path, backup, d[path].content, content, disk);
            OriginalKept(d[path].content, ApplyAll(d, ops), path, backup)
  {
    hide KeepOps, Attempt, ApplyAll;
    var keep := KeepOps(d, backup, d[path].content, disk.partial);
    if disk.fails < |keep| {
      KeepLeavesTarget(d, path, backup, disk.partial, disk.fails);
    } else {
      var save := Attempt(path, disk.temporary, content, disk.fails - |keep|);
      ApplyAllAppend(d, keep, save);
      KeepHasBackup(d, path, backup, disk.temporary, disk.partial);
      AttemptPrefix(ApplyAll(d, keep), path, disk.temporary, content, disk.fails - |keep|, |save|);
      assert save[..|save|] == save;
    }
  }

  /** Whichever file operation of a migration raises, the original is still there. */
  lemma ErrorKeepsOriginal(sum: Checksum, d: Directory<Content>, m: Model, value: int, disk: Disk)
    requires ValidModel(m) && disk.temporary !in {PathOf(m.name), BackupOf(m.name)}
    requires Migrate(sum, d, m, value, disk).Changed?
    ensures OriginalKept(d[PathOf(m.name)].content, ApplyAll(d, Migrate(sum, d, m, value, disk).ops),
                         PathOf(m.name), BackupOf(m.name))
  {
    hide Loads, LoadedModel, Upgraded, Legacy, MigrateOps, ApplyAll, ValidModel, DocumentOf, OriginalKept;
    var r, path := Migrate(sum, d, m, value, disk), PathOf(m.name);
    LoadedIsValid(sum, m, Json(Upgraded(sum, d[path].content.doc, value)));
    OpsKeepOriginal(d, path, BackupOf(m.name), Json(DocumentOf(sum, r.loaded)), disk);
  }

  /** Before the replacement a save leaves its target alone. */
  lemma EarlyCrashKeepsTarget(d: Directory<Content>, path: Name, temporary: Name, content: Content, n: nat,
                              found: Directory<Content>)
    requires path in d && d[path].synced && path != temporary && n < 3
    requires Crash(d, Attempt(path, temporary, content, n), found)
    ensures path in found && found[path] == d[path]
  {
    hide Apply, ApplyAll, Replacing;
    var ops, steps := Attempt(path, temporary, content, n), Replacing(path, temporary, content);
    var k :| 0 <= k <= |ops| && Survives(ApplyAll(d, ops[..k]), found);
    if k < |ops| {
      assert ops[..k] == steps[..k];
      PrefixStates(d, path, temporary, content, k);
    } else {
      assert ops[..k] == ops;
      AttemptEnds(d, path, temporary, content, n);
      PrefixStates(d, path, temporary, content, n);
      UnlinkLeaves(ApplyAll(d, steps[..n]), temporary, path);
    }
  }

  lemma UnlinkLeaves(d: Directory<Content>, temporary: Name, path: Name)
    requires path in d && path != temporary
    ensures var e := Apply(d, Unlink(temporary)); path in e && e[path] == d[path]
  {
  }

  lemma CrashWithBackup(d: Directory<Content>, path: Name, backup: Name, content: Content, disk: Disk,
                        found: Directory<Content>)
    requires Laid(d, path, backup, disk.temporary) && d[path].synced
    requires backup in d ==> d[backup].synced || disk.fails < 3
    requires Crash(d, MigrateOps(d, path, backup, d[path].content, content, disk), found)
    ensures OriginalKept(d[path].content, found, path, backup)
  {
    hide Attempt, ApplyAll;
    var keep := KeepOps(d, backup, d[path].content, disk.partial);
    if disk.fails < |keep| {
      var ops := keep[..disk.fails];
      var k :| 0 <= k <= |ops| && Survives(ApplyAll(d, ops[..k]), found);
      assert ops[..k] == keep[..k];
      KeepLeavesTarget(d, path, backup, disk.partial, k);
    } else {
      var n := disk.fails - |keep|;
      CrashInParts(d, keep, Attempt(path, disk.temporary, content, n), found);
      KeepHasBackup(d, path, backup, disk.temporary, disk.partial);
      if Crash(d, keep, found) {
        var k :| 0 <= k <= |keep| && Survives(ApplyAll(d, keep[..k]), found);
        KeepLeavesTarget(d, path, backup, disk.partial, k);
      } else if backup in d && !d[backup].synced {
        EarlyCrashKeepsTarget(ApplyAll(d, keep), path, disk.temporary, content, n, found);
      } else {
        ReplacingIsAtomic(ApplyAll(d, keep), path, disk.temporary, content, n, found);
      }
    }
  }

  /** After the replacement an unsynchronised backup may hold anything. */
  lemma LostBackup(d: Directory<Content>, path: Name, backup: Name, content: Content, disk: Disk)
    requires Laid(d, path, backup, disk.temporary) && backup in d && !d[backup].synced && disk.fails >= 3
    requires d[path].content.Json? && content != d[path].content
    ensures !EveryCrashKeeps(d, MigrateOps(d, path, backup, d[path].content, content, disk), d[path].content,
                             path, backup)
  {
    hide ApplyAll, Replacing;
    var save, steps := Attempt(path, disk.temporary, content, disk.fails), Replacing(path, disk.temporary, content);
    var ops := MigrateOps(d, path, backup, d[path].content, content, disk);
    assert ops == [] + save == save;
    assert ops[..3] == steps[..3];
    PrefixStates(d, path, disk.temporary, content, 3);
    var e := ApplyAll(d, ops[..3]);
    var found := e[backup := File(Bytes(0), true)];
    assert Survives(e, found);
    assert Crash(d, ops, found);
    assert !OriginalKept(d[path].content, found, path, backup);
  }

  /** Wherever a crash hits the migration, and whichever operation raised before, the
      original is not lost, exactly when a backup found at the start was already on disk or
      the replacement is never reached: an existing backup is compared, but not
      synchronised again. */
  lemma CrashKeepsOriginal(sum: Checksum, d: Directory<Content>, m: Model, value: int, disk: Disk)
    requires ValidModel(m) && disk.temporary !in {PathOf(m.name), BackupOf(m.name)}
    requires Migrate(sum, d, m, value, disk).Changed? && d[PathOf(m.name)].synced
    ensures var path, backup := PathOf(m.name), BackupOf(m.name);
            EveryCrashKeeps(d, Migrate(sum, d, m, value, disk).ops, d[path].content, path, backup)
            <==> (backup in d ==> d[backup].synced || disk.fails < 3)
  {
    hide Loads, LoadedModel, Upgraded, Legacy, MigrateOps, Crash, ValidModel, DocumentOf, OriginalKept;
    var r := Migrate(sum, d, m, value, disk);
    var path, backup := PathOf(m.name), BackupOf(m.name);
    LoadedIsValid(sum, m, Json(Upgraded(sum, d[path].content.doc, value)));
    if backup in d && !d[backup].synced && disk.fails >= 3 {
      UnsyncedBackupIsLost(sum, d, m, value, disk);
    } else {
      forall found | Crash(d, r.ops, found)
        ensures OriginalKept(d[path].content, found, path, backup)
      {
        CrashWithBackup(d, path, backup, Json(DocumentOf(sum, r.loaded)), disk, found);
      }
    }
  }

  /** The run that loses both: the old backup never reached the disk, the replacement did. */
  lemma UnsyncedBackupIsLost(sum: Checksum, d: Directory<Content>, m: Model, value: int, disk: Disk)
    requires ValidModel(m) && disk.temporary !in {PathOf(m.name), BackupOf(m.name)}
    requires Migrate(sum, d, m, value, disk).Changed? && disk.fails >= 3
    requires BackupOf(m.name) in d && !d[BackupOf(m.name)].synced
    ensures var path, backup := PathOf(m.name), BackupOf(m.name);
            !EveryCrashKeeps(d, Migrate(sum, d, m, value, disk).ops, d[path].content, path, backup)
  {
    hide Loads, LoadedModel, MigrateOps, TextsOf, Upgraded, EveryCrashKeeps, ValidModel;
    var r := Migrate(sum, d, m, value, disk);
    var path := PathOf(m.name);
    LoadedIsValid(sum, m, Json(Upgraded(sum, d[path].content.doc, value)));
    SchemaTwo(sum, r.loaded, m);
    LoadedIdentity(m, Upgraded(sum, d[path].content.doc, value));
    LostBackup(d, path, BackupOf(m.name), Json(DocumentOf(sum, r.loaded)), disk);
  }

  /** How such a backup comes about: synchronising it raised, and the migration is run again.
      The retry is accepted, and a crash in it can lose the original. */
  lemma RetryAfterFailedSync(sum: Checksum, d: Directory<Content>, m: Model, value: int, disk: Disk, retry: Disk)
    requires ValidModel(m) && BackupOf(m.name) !in d && disk.fails == 2
    requires retry.temporary !in {PathOf(m.name), BackupOf(m.name)} && retry.fails >= 3
    requires Migrate(sum, d, m, value, disk).Changed?
    ensures var path, backup := PathOf(m.name), BackupOf(m.name);
            var e := ApplyAll(d, Migrate(sum, d, m, value, disk).ops);
            && !Migrate(sum, d, m, value, disk).ok && Migrate(sum, e, m, value, retry).Changed?
            && path in e && e[path] == d[path]
            && !EveryCrashKeeps(e, Migrate(sum, e, m, value, retry).ops, d[path].content, path, backup)
  {
    hide Loads, LoadedModel, Upgraded, Legacy, DocumentOf, EveryCrashKeeps, ApplyAll, ValidModel;
    var path, backup := PathOf(m.name), BackupOf(m.name);
    LoadedIsValid(sum, m, Json(Upgraded(sum, d[path].content.doc, value)));
    KeepStates(d, backup, d[path].content, disk.partial, 2);
    UnsyncedBackupIsLost(sum, ApplyAll(d, Migrate(sum, d, m, value, disk).ops), m, value, retry);
  }

  /** A backup that is not complete stops every later migration; the target stays. */
  lemma RetryAfterPartialBackup(sum: Checksum, d: Directory<Content>, m: Model, value: int, disk: Disk, retry: Disk)
    requires ValidModel(m) && BackupOf(m.name) !in d && disk.fails == 1
    requires Migrate(sum, d, m, value, disk).Changed? && disk.partial != d[PathOf(m.name)].content
    ensures var e := ApplyAll(d, Migrate(sum, d, m, value, disk).ops);
            && Migrate(sum, e, m, value, retry).Untouched?
            && PathOf(m.name) in e && e[PathOf(m.name)] == d[PathOf(m.name)]
  {
    hide Loads, LoadedModel, Upgraded, Legacy, DocumentOf, ApplyAll, ValidModel;
    LoadedIsValid(sum, m, Json(Upgraded(sum, d[PathOf(m.name)].content.doc, value)));
    KeepStates(d, BackupOf(m.name), d[PathOf(m.name)].content, disk.partial, 1);
  }

  lemma LoadedIdentity(m: Model, doc: Document)
    ensures LoadedModel(m, doc).identity == m.identity && LoadedModel(m, doc).validates == m.validates
    ensures LoadedModel(m, doc).name == m.name && LoadedModel(m, doc).catalog == m.catalog
  {
  }

  // ---- The migration as it runs ----

  /** Keep the original, then save as usual; another backup is never overwritten, and the
      file operation numbered disk.fails raises. */
  method KeepAndSave(store: Store, model: OdModel, original: Content, disk: Disk) returns (ok: bool)
    requires Savable(model.View()) && store.locked
    modifies store
    ensures var d, path, backup := old(store.files), PathOf(model.name), BackupOf(model.name);
            if backup in d && d[backup].content != original then !ok && store.files == d
            else && ok == Completes(d, backup, disk.fails)
                 && store.files == ApplyAll(d, MigrateOps(d, path, backup, original,
                                                          Json(DocumentOf(store.checksum, model.View())), disk))
  {
    hide Attempt, ApplyAll, DocumentOf;
    var backup := BackupOf(model.name);
    ghost var d := store.files;
    if backup in store.files && store.files[backup].content != original {
      return false;
    }
    var keep := KeepOps(store.files, backup, original, disk.partial);
    store.RunOps(keep, disk.fails);
    if disk.fails < |keep| {
      return false;
    }
    assert keep[..|keep|] == keep;
    var n := disk.fails - |keep|;
    ApplyAllAppend(d, keep, Attempt(PathOf(model.name), disk.temporary,
                                    Json(DocumentOf(store.checksum, model.View())), n));
    ok := store.Save(model, disk.temporary, n);
  }

  /** Validate with a staged store, keep the original, then save as usual. */
  method MigrateProfileVelocity(store: Store, model: OdModel, value: int, disk: Disk)
    returns (ok: bool, changed: bool)
    requires Migratable(model.View()) && store.locked && disk.temporary !in {PathOf(model.name), BackupOf(model.name)}
    modifies store, model
    ensures ValidModel(old(model.View()))
    ensures match Migrate(store.checksum, old(store.files), old(model.View()), value, disk)
            case Untouched => !ok && store.files == old(store.files)
            case Already(loaded) => ok && !changed && store.files == old(store.files) && model.View() == loaded
            case Changed(ops, loaded, done) =>
              ok == changed == done && store.files == ApplyAll(old(store.files), ops) && model.View() == loaded
  {
    hide Loads, LoadedModel, MigrateOps, TextsOf, ApplyAll, DocumentOf, Encodable, Distinct, Completes;
    ghost var m := model.View();
    var path := PathOf(model.name);
    if model.identity.model != "f_kr_cmmt" || !(0 <= value <= 0xffff_ffff) || path !in store.files {
      return false, false;
    }
    var original := store.files[path].content;
    if original.Bytes? {
      return false, false;
    }
    var doc := original.doc;
    if doc.schema == 2 {
      var r := store.Load(model);
      return r == Loaded, false;
    }
    if !Sealed(store.checksum, doc) || doc.schema != 1 || doc.identity != model.identity
       || doc.values.Keys != TextsOf(model.catalog, model.od).Keys - {VELOCITY} {
      return false, false;
    }
    var upgraded := Upgraded(store.checksum, doc, value);
    var staged := new Store(store.checksum, map[path := File(Json(upgraded), true)]);
    var loading := staged.Load(model);
    if loading != Loaded {
      return false, false;
    }
    LoadedIsValid(store.checksum, m, Json(upgraded));
    LoadedIdentity(m, upgraded);
    var saved := KeepAndSave(store, model, original, disk);
    return saved, saved;
  }
}
