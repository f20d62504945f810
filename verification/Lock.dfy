/** The workspace lock, at the level of a parsed TOML table. */
module Lock {
  import opened Common
  import opened Ordering

  const MAX_MODULES: nat := 16
  const MAX_ID_BYTES: nat := 64
  const MAX_PATH_BYTES: nat := 256

  datatype Value = Str(text: string) | Int(n: int) | Arr(items: seq<Value>) | Table(fields: map<string, Value>) | Other

  datatype Module = Module(id: string, path: string, digest: string)

  datatype WorkspaceLock = WorkspaceLock(profile: Option<string>, modules: seq<Module>, digest: string)

  datatype Failure =
    | UnknownField | BadSchema | BadProfile | BadModules | TooManyModules | BadModule
    | InvalidIdentity | DigestMismatch | MissingDigest

  datatype Verification = NoLock | Current | Stale(expected: string, actual: string)

  /** Code the lock does not own: the path rules and the artifact digest of a canonical
      lock payload. */
  datatype Rules = Rules(relative: string -> bool, artifact: (Option<string>, seq<Module>) -> string)

  /** Different canonical payloads have different digests. */
  ghost predicate Injective(rules: Rules) {
    forall p, m, p', m' :: rules.artifact(p, m) == rules.artifact(p', m') ==> p == p' && m == m'
  }

  predicate IsHex64(text: string) {
    |text| == 64 && forall c :: c in text ==> '0' <= c <= '9' || 'a' <= c <= 'f'
  }

  predicate IsControl(c: char) {
    c as int < 0x20 || 0x7F <= c as int < 0xA0
  }

  predicate ModuleOk(rules: Rules, m: Module) {
    && m.id != "" && Utf8Len(m.id) <= MAX_ID_BYTES && (forall c :: c in m.id ==> !IsControl(c))
    && m.path != "" && Utf8Len(m.path) <= MAX_PATH_BYTES && rules.relative(m.path)
    && IsHex64(m.digest)
  }

  predicate IdLeq(a: Module, b: Module) {
    StrLeq(a.id, b.id)
  }

  predicate ProfileOk(profile: Option<string>) {
    profile.None? || IsHex64(profile.value)
  }

  predicate DistinctIds(ms: seq<Module>) {
    forall i, j :: 0 <= i < j < |ms| ==> ms[i].id != ms[j].id
  }

  /** `create_workspace_lock`: validate, sort by id, refuse duplicates, bind by digest. */
  function CreateLock(rules: Rules, profile: Option<string>, modules: seq<Module>): Option<WorkspaceLock> {
    var sorted := Sort(modules, IdLeq);
    if ProfileOk(profile) && |modules| <= MAX_MODULES && (forall m :: m in sorted ==> ModuleOk(rules, m))
       && DistinctIds(sorted)
    then Some(WorkspaceLock(profile, sorted, rules.artifact(profile, sorted)))
    else None
  }

  // ---- writing ----

  function ModuleTable(m: Module): Value {
    Table(map["digest" := Str(m.digest), "id" := Str(m.id), "path" := Str(m.path)])
  }

  function Tables(ms: seq<Module>): seq<Value> {
    if ms == [] then [] else Tables(ms[..|ms| - 1]) + [ModuleTable(ms[|ms| - 1])]
  }

  function Document(lock: WorkspaceLock): map<string, Value> {
    map["lockDigest" := Str(lock.digest)]
    + (if lock.profile.Some? then map["profileDigest" := Str(lock.profile.value)] else map[])
    + (if lock.modules != [] then map["modules" := Arr(Tables(lock.modules))] else map[])
  }

  /** `write_workspace_lock`, up to the bytes: the document it would store. */
  function WriteLock(rules: Rules, lock: WorkspaceLock): Result<map<string, Value>, Failure> {
    if |lock.modules| > MAX_MODULES then Err(TooManyModules)
    else if !ProfileOk(lock.profile) || exists m :: m in lock.modules && !ModuleOk(rules, m) then Err(InvalidIdentity)
    else
      match CreateLock(rules, lock.profile, lock.modules)
      case None => Err(InvalidIdentity)
      case Some(canonical) =>
        if lock.digest != canonical.digest || lock.profile != canonical.profile then Err(DigestMismatch)
        else Ok(Document(canonical))
  }

  // ---- loading ----

  function ParseModule(rules: Rules, v: Value): Result<Module, Failure> {
    if !v.Table? then Err(BadModule)
    else
      var t := v.fields;
      if !(t.Keys <= {"id", "path", "digest"}) then Err(BadModule)
      else if !("id" in t && t["id"].Str? && "path" in t && t["path"].Str? && "digest" in t && t["digest"].Str?)
      then Err(BadModule)
      else
        var m := Module(t["id"].text, t["path"].text, t["digest"].text);
        if ModuleOk(rules, m) then Ok(m) else Err(InvalidIdentity)
  }

  function ParseModules(rules: Rules, items: seq<Value>): Result<seq<Module>, Failure> {
    if items == [] then Ok([])
    else
      var n := |items| - 1;
      match ParseModules(rules, items[..n])
      case Err(f) => Err(f)
      case Ok(before) =>
        match ParseModule(rules, items[n])
        case Err(f) => Err(f)
        case Ok(m) => Ok(before + [m])
  }

  /** The loop that fills the module vector. */
  method LoadModules(rules: Rules, items: seq<Value>) returns (r: Result<seq<Module>, Failure>)
    ensures r == ParseModules(rules, items)
  {
    var modules := [];
    for i := 0 to |items|
      invariant ParseModules(rules, items[..i]) == Ok(modules)
    {
      assert items[..i + 1][..i] == items[..i];
      var m := ParseModule(rules, items[i]);
      if m.Err? {
        FailureStays(rules, items, i + 1);
        return Err(m.error);
      }
      modules := modules + [m.value];
    }
    assert items[..|items|] == items;
    r := Ok(modules);
  }

  lemma {:induction false} FailureStays(rules: Rules, items: seq<Value>, i: nat)
    requires i <= |items| && ParseModules(rules, items[..i]).Err?
    ensures ParseModules(rules, items) == ParseModules(rules, items[..i])
  {
    if i < |items| {
      assert items[..|items| - 1][..i] == items[..i];
      FailureStays(rules, items[..|items| - 1], i);
    } else {
      assert items[..i] == items;
    }
  }

  function ModuleItems(doc: map<string, Value>): Result<seq<Value>, Failure> {
    if "modules" !in doc then Ok([])
    else if !doc["modules"].Arr? then Err(BadModules)
    else if |doc["modules"].items| > MAX_MODULES then Err(TooManyModules)
    else Ok(doc["modules"].items)
  }

  function ProfileField(doc: map<string, Value>): Result<Option<string>, Failure> {
    if "profileDigest" !in doc then Ok(None)
    else if !doc["profileDigest"].Str? then Err(BadProfile)
    else if !IsHex64(doc["profileDigest"].text) then Err(InvalidIdentity)
    else Ok(Some(doc["profileDigest"].text))
  }

  /** `load_workspace_lock` on a parsed document: the digest is derived again. */
  function LoadLock(rules: Rules, doc: map<string, Value>): Result<WorkspaceLock, Failure> {
    if !(doc.Keys <= {"lockDigest", "modules", "profileDigest", "schemaVersion"}) then Err(UnknownField)
    else if "schemaVersion" in doc && doc["schemaVersion"] != Int(1) then Err(BadSchema)
    else
      match ProfileField(doc)
      case Err(f) => Err(f)
      case Ok(profile) =>
        match ModuleItems(doc)
        case Err(f) => Err(f)
        case Ok(items) =>
          match ParseModules(rules, items)
          case Err(f) => Err(f)
          case Ok(modules) =>
            match CreateLock(rules, profile, modules)
            case None => Err(InvalidIdentity)
            case Some(lock) =>
              if "lockDigest" !in doc || !doc["lockDigest"].Str? then Err(MissingDigest)
              else if doc["lockDigest"].text != lock.digest then Err(DigestMismatch)
              else Ok(lock)
  }

  /** `verify_workspace_lock`; `None` is a workspace without a lock file. */
  function VerifyLock(rules: Rules, stored: Option<map<string, Value>>, current: WorkspaceLock)
    : Result<Verification, Failure>
  {
    match stored
    case None => Ok(NoLock)
    case Some(doc) =>
      match LoadLock(rules, doc)
      case Err(f) => Err(f)
      case Ok(lock) => Ok(if lock.digest == current.digest then Current else Stale(current.digest, lock.digest))
  }

  // ---- canonical locks ----

  lemma IdPreorder()
    ensures Preorder(IdLeq)
  {
    forall a: Module, b: Module ensures IdLeq(a, b) || IdLeq(b, a) {
      StrTotal(a.id, b.id);
    }
    forall a: Module, b: Module, c: Module | IdLeq(a, b) && IdLeq(b, c) ensures IdLeq(a, c) {
      StrTransitive(a.id, b.id, c.id);
    }
  }

  lemma {:induction false} SortOfSorted<T>(s: seq<T>, leq: (T, T) -> bool)
    requires Sorted(s, leq)
    ensures Sort(s, leq) == s
  {
    if s != [] {
      SortOfSorted(s[1..], leq);
      assert s == [s[0]] + s[1..];
      assert s[1..] != [] ==> leq(s[0], s[1]);
    }
  }

  /** Creating a lock from a created lock changes nothing. */
  lemma CreateIsIdempotent(rules: Rules, profile: Option<string>, modules: seq<Module>)
    requires CreateLock(rules, profile, modules).Some?
    ensures var lock := CreateLock(rules, profile, modules).value;
            && CreateLock(rules, lock.profile, lock.modules) == Some(lock)
            && (forall m :: m in lock.modules ==> ModuleOk(rules, m)) && ProfileOk(lock.profile)
            && |lock.modules| <= MAX_MODULES
  {
    IdPreorder();
    SortSorts(modules, IdLeq);
    SortPermutes(modules, IdLeq);
    SortOfSorted(Sort(modules, IdLeq), IdLeq);
  }

  lemma ParseOfTable(rules: Rules, m: Module)
    requires ModuleOk(rules, m)
    ensures ParseModule(rules, ModuleTable(m)) == Ok(m)
  {}

  /** A canonical lock loads back from its document as itself. */
  lemma DocumentRoundTrip(rules: Rules, lock: WorkspaceLock)
    requires CreateLock(rules, lock.profile, lock.modules) == Some(lock)
    ensures LoadLock(rules, Document(lock)) == Ok(lock)
  {
    CreateIsIdempotent(rules, lock.profile, lock.modules);
    hide LoadLock, ModuleOk, Tables;
    assert Document(lock) == Spelled(lock.profile, lock.modules, lock.digest, false, false);
    SpelledLoads(rules, lock.profile, lock.modules, lock.digest, false, false);
  }

  /** Every lock that write accepts loads back as the recomputed canonical lock and
      verifies as current, against the canonical lock and against the one given. */
  lemma WriteThenLoad(rules: Rules, lock: WorkspaceLock)
    requires WriteLock(rules, lock).Ok?
    ensures CreateLock(rules, lock.profile, lock.modules).Some?
    ensures var canonical := CreateLock(rules, lock.profile, lock.modules).value;
            var doc := WriteLock(rules, lock).value;
            && LoadLock(rules, doc) == Ok(canonical)
            && VerifyLock(rules, Some(doc), canonical) == Ok(Current)
            && VerifyLock(rules, Some(doc), lock) == Ok(Current)
  {
    CreateIsIdempotent(rules, lock.profile, lock.modules);
    DocumentRoundTrip(rules, CreateLock(rules, lock.profile, lock.modules).value);
  }

  /** Any lock that loads is accepted by write and loads again unchanged. */
  lemma LoadThenWrite(rules: Rules, doc: map<string, Value>)
    requires LoadLock(rules, doc).Ok?
    ensures var lock := LoadLock(rules, doc).value;
            && WriteLock(rules, lock).Ok?
            && LoadLock(rules, WriteLock(rules, lock).value) == Ok(lock)
  {
    var lock := LoadLock(rules, doc).value;
    var modules := ParseModules(rules, ModuleItems(doc).value).value;
    CreateIsIdempotent(rules, ProfileField(doc).value, modules);
    WriteThenLoad(rules, lock);
  }

  /** A stored digest fixes the identities: a document that keeps the digest of a valid
      lock and loads at all loads as that same lock. So keeping the digest while
      changing a profile or a module is always refused. */
  lemma KeptDigestMeansSameIdentities(rules: Rules, doc: map<string, Value>, doc': map<string, Value>)
    requires Injective(rules) && LoadLock(rules, doc).Ok? && LoadLock(rules, doc').Ok?
    requires doc["lockDigest"] == doc'["lockDigest"]
    ensures LoadLock(rules, doc) == LoadLock(rules, doc')
  {
    var a, b := LoadLock(rules, doc).value, LoadLock(rules, doc').value;
    assert a.digest == rules.artifact(a.profile, a.modules) && b.digest == rules.artifact(b.profile, b.modules);
  }

  // ---- exactly what can be locked ----

  lemma {:induction false} DistinctCount(a: seq<Module>, x: Module)
    requires DistinctIds(a)
    ensures multiset(a)[x] <= 1
  {
    if a != [] {
      DistinctCount(a[1..], x);
      assert a == [a[0]] + a[1..];
    }
  }

  /** Whether ids are distinct does not depend on the order. */
  lemma DistinctInAnyOrder(a: seq<Module>, b: seq<Module>)
    requires multiset(a) == multiset(b) && DistinctIds(a)
    ensures DistinctIds(b)
  {
    forall i, j | 0 <= i < j < |b| ensures b[i].id != b[j].id {
      assert b[i] in multiset(a) && b[j] in multiset(a);
      var p :| 0 <= p < |a| && a[p] == b[i];
      var q :| 0 <= q < |a| && a[q] == b[j];
      DistinctCount(a, b[i]);
      TwiceCounted(b, i, j);
    }
  }

  /** Identities can be locked exactly when the profile digest, if any, is 64 lower-case hex
      digits, there are at most sixteen modules with different ids, and every module has a
      bounded id without control characters, a bounded relative path and such a digest. */
  lemma LockableIff(rules: Rules, profile: Option<string>, ms: seq<Module>)
    ensures CreateLock(rules, profile, ms).Some? <==>
              && (profile.Some? ==> |profile.value| == 64 && forall c :: c in profile.value ==> c in "0123456789abcdef")
              && |ms| <= 16
              && (forall i, j :: 0 <= i < j < |ms| ==> ms[i].id != ms[j].id)
              && (forall m :: m in ms ==>
                    && 1 <= |m.id| && Utf8Len(m.id) <= 64
                    && (forall c :: c in m.id ==> ' ' <= c <= '~' || '\U{A0}' <= c)
                    && 1 <= |m.path| && Utf8Len(m.path) <= 256 && rules.relative(m.path)
                    && |m.digest| == 64 && forall c :: c in m.digest ==> c in "0123456789abcdef")
  {
    var sorted := Sort(ms, IdLeq);
    SortPermutes(ms, IdLeq);
    SortMembers(ms, IdLeq);
    if DistinctIds(ms) {
      DistinctInAnyOrder(ms, sorted);
    }
    if DistinctIds(sorted) {
      DistinctInAnyOrder(sorted, ms);
    }
    HexDigits();
    hide Utf8Len, Sort;
  }

  lemma HexDigits()
    ensures forall c :: c in "0123456789abcdef" <==> '0' <= c <= '9' || 'a' <= c <= 'f'
  {
    var digits := "0123456789abcdef";
    forall c | '0' <= c <= '9' || 'a' <= c <= 'f' ensures c in digits {
      var i := if c <= '9' then c as int - '0' as int else c as int - 'a' as int + 10;
      assert digits[i] == c;
    }
  }

  // ---- exactly what loads ----

  /** A document with these fields; the schema version and an empty list may be written. */
  function Spelled(profile: Option<string>, ms: seq<Module>, digest: string, schema: bool, listed: bool): map<string, Value> {
    map["lockDigest" := Str(digest)]
    + (if profile.Some? then map["profileDigest" := Str(profile.value)] else map[])
    + (if ms != [] || listed then map["modules" := Arr(Tables(ms))] else map[])
    + (if schema then map["schemaVersion" := Int(1)] else map[])
  }

  lemma ParseRejects(rules: Rules, m: Module)
    requires !ModuleOk(rules, m)
    ensures ParseModule(rules, ModuleTable(m)) == Err(InvalidIdentity)
  {
    hide ModuleOk;
  }

  ghost predicate AllOk(rules: Rules, ms: seq<Module>) {
    forall m :: m in ms ==> ModuleOk(rules, m)
  }

  lemma AllOkUnfold(rules: Rules, ms: seq<Module>)
    requires ms != []
    ensures AllOk(rules, ms) <==> AllOk(rules, ms[..|ms| - 1]) && ModuleOk(rules, ms[|ms| - 1])
    ensures ms == ms[..|ms| - 1] + [ms[|ms| - 1]]
  {
    hide ModuleOk;
    assert ms == ms[..|ms| - 1] + [ms[|ms| - 1]];
  }

  lemma {:induction false} ParseOfAnyTables(rules: Rules, ms: seq<Module>)
    ensures |Tables(ms)| == |ms|
    ensures ParseModules(rules, Tables(ms)) == if AllOk(rules, ms) then Ok(ms) else Err(InvalidIdentity)
  {
    hide ModuleTable, ModuleOk, ParseModule;
    if ms != [] {
      hide ParseModules, AllOk;
      var n := |ms| - 1;
      ParseOfAnyTables(rules, ms[..n]);
      AllOkUnfold(rules, ms);
      if ModuleOk(rules, ms[n]) {
        ParseOfTable(rules, ms[n]);
      } else {
        ParseRejects(rules, ms[n]);
      }
      ParseAppended(rules, Tables(ms[..n]), ModuleTable(ms[n]));
    }
  }

  lemma ParseAppended(rules: Rules, items: seq<Value>, v: Value)
    ensures ParseModules(rules, items + [v]) ==
            match ParseModules(rules, items)
            case Err(f) => Err(f)
            case Ok(before) =>
              match ParseModule(rules, v)
              case Err(f) => Err(f)
              case Ok(m) => Ok(before + [m])
  {
    hide ParseModule;
    LastOfConcat(items, [v]);
    assert items + [v][..0] == items;
  }

  /** Which fields such a document has, and their values. */
  lemma SpelledHas(profile: Option<string>, ms: seq<Module>, digest: string, schema: bool, listed: bool)
    ensures var doc := Spelled(profile, ms, digest, schema, listed);
            && doc.Keys <= {"lockDigest", "modules", "profileDigest", "schemaVersion"}
            && "lockDigest" in doc && doc["lockDigest"] == Str(digest)
            && ("schemaVersion" in doc ==> doc["schemaVersion"] == Int(1))
            && ("profileDigest" in doc <==> profile.Some?)
            && (profile.Some? ==> doc["profileDigest"] == Str(profile.value))
            && ("modules" in doc <==> ms != [] || listed) && ("modules" in doc ==> doc["modules"] == Arr(Tables(ms)))
  {
    hide Tables;
  }

  lemma SpelledFields(profile: Option<string>, ms: seq<Module>, digest: string, schema: bool, listed: bool)
    requires |Tables(ms)| == |ms|
    ensures var doc := Spelled(profile, ms, digest, schema, listed);
            && ProfileField(doc) == (if ProfileOk(profile) then Ok(profile) else Err(InvalidIdentity))
            && ModuleItems(doc) == (if |ms| > MAX_MODULES then Err(TooManyModules) else Ok(Tables(ms)))
  {
    hide IsHex64, Tables, Spelled;
    SpelledHas(profile, ms, digest, schema, listed);
  }

  lemma InvalidModuleCannotBeLocked(rules: Rules, profile: Option<string>, ms: seq<Module>)
    ensures CreateLock(rules, profile, ms).Some? ==> AllOk(rules, ms)
  {
    hide ModuleOk;
    SortMembers(ms, IdLeq);
  }

  /** What loading such a document answers, in full: the lock of its identities if its
      digest is theirs, a mismatch if it is any other, and otherwise what is wrong. */
  lemma SpelledLoads(rules: Rules, profile: Option<string>, ms: seq<Module>, digest: string, schema: bool, listed: bool)
    ensures LoadLock(rules, Spelled(profile, ms, digest, schema, listed)) ==
            if !ProfileOk(profile) then Err(InvalidIdentity)
            else if |ms| > MAX_MODULES then Err(TooManyModules)
            else match CreateLock(rules, profile, ms)
                 case None => Err(InvalidIdentity)
                 case Some(lock) => if digest == lock.digest then Ok(lock) else Err(DigestMismatch)
  {
    hide Spelled, ProfileField, ModuleItems, ParseModules, CreateLock, Tables, AllOk, IsHex64;
    ParseOfAnyTables(rules, ms);
    SpelledHas(profile, ms, digest, schema, listed);
    SpelledFields(profile, ms, digest, schema, listed);
    InvalidModuleCannotBeLocked(rules, profile, ms);
  }

  lemma ParsedTable(rules: Rules, v: Value)
    requires ParseModule(rules, v).Ok?
    ensures v == ModuleTable(ParseModule(rules, v).value)
  {
    hide ModuleOk;
    var t, m := v.fields, ParseModule(rules, v).value;
    assert t == map["digest" := Str(m.digest), "id" := Str(m.id), "path" := Str(m.path)];
  }

  lemma {:induction false} ParsedTables(rules: Rules, items: seq<Value>)
    requires ParseModules(rules, items).Ok?
    ensures items == Tables(ParseModules(rules, items).value) && |items| == |ParseModules(rules, items).value|
  {
    hide ModuleTable, ParseModule;
    if items != [] {
      var n := |items| - 1;
      ParsedTables(rules, items[..n]);
      ParsedTable(rules, items[n]);
      var ms := ParseModules(rules, items).value;
      assert ms[..n] == ParseModules(rules, items[..n]).value;
      assert items == items[..n] + [items[n]];
    }
  }

  /** Conversely, every document that loads is such a document: nothing else is accepted.
      With SpelledLoads this says exactly what loads, and as what. */
  lemma LoadedIsSpelled(rules: Rules, doc: map<string, Value>) returns (ms: seq<Module>, schema: bool, listed: bool)
    requires LoadLock(rules, doc).Ok?
    ensures var lock := LoadLock(rules, doc).value;
            && doc == Spelled(lock.profile, ms, lock.digest, schema, listed)
            && CreateLock(rules, lock.profile, ms) == Some(lock)
  {
    hide ParseModules, ModuleOk, IsHex64;
    var lock := LoadLock(rules, doc).value;
    var items := ModuleItems(doc).value;
    ms, schema, listed := ParseModules(rules, items).value, "schemaVersion" in doc, "modules" in doc;
    ParsedTables(rules, items);
    assert lock.profile == ProfileField(doc).value;
    FieldsGiveSpelled(doc, lock.profile, ms, lock.digest, schema, listed);
  }

  lemma FieldsGiveSpelled(doc: map<string, Value>, profile: Option<string>, ms: seq<Module>, digest: string,
                          schema: bool, listed: bool)
    requires doc.Keys <= {"lockDigest", "modules", "profileDigest", "schemaVersion"}
    requires "lockDigest" in doc && doc["lockDigest"] == Str(digest)
    requires (schema <==> "schemaVersion" in doc) && (schema ==> doc["schemaVersion"] == Int(1))
    requires listed <==> "modules" in doc
    requires ProfileField(doc) == Ok(profile) && ModuleItems(doc) == Ok(Tables(ms)) && |Tables(ms)| == |ms|
    ensures doc == Spelled(profile, ms, digest, schema, listed)
  {
    hide IsHex64, Tables;
    var spelled := Spelled(profile, ms, digest, schema, listed);
    forall k ensures k in doc <==> k in spelled {}
    forall k | k in doc ensures doc[k] == spelled[k] {}
  }

  /** What writing answers, in full: it is accepted exactly when the identities can be
      locked and the lock carries their digest. */
  lemma WriteAnswers(rules: Rules, lock: WorkspaceLock)
    ensures var made := CreateLock(rules, lock.profile, lock.modules);
            && (WriteLock(rules, lock) == Err(TooManyModules) <==> |lock.modules| > 16)
            && (WriteLock(rules, lock) == Err(InvalidIdentity) <==> |lock.modules| <= 16 && made.None?)
            && (WriteLock(rules, lock) == Err(DigestMismatch) <==> made.Some? && lock.digest != made.value.digest)
            && (WriteLock(rules, lock).Ok? <==> made.Some? && lock.digest == made.value.digest)
  {
    hide ModuleOk, Document;
    InvalidModuleCannotBeLocked(rules, lock.profile, lock.modules);
  }

  // ---- verification ----

  /** Without a document there is no lock; a document that does not load gives its own
      error; and no other document is answered with "no lock". */
  lemma VerifyWithoutLock(rules: Rules, stored: Option<map<string, Value>>, current: WorkspaceLock)
    ensures VerifyLock(rules, stored, current) == Ok(NoLock) <==> stored.None?
    ensures stored.Some? ==>
              forall f :: VerifyLock(rules, stored, current) == Err(f) <==> LoadLock(rules, stored.value) == Err(f)
  {
    hide LoadLock;
  }

  lemma {:induction false} SortedByIdUnique(a: seq<Module>, b: seq<Module>)
    requires Sorted(a, IdLeq) && Sorted(b, IdLeq) && DistinctIds(a) && multiset(a) == multiset(b)
    ensures a == b
  {
    SameSize(a, b);
    if a != [] {
      HeadsAreOne(a, b);
      TailItems(a);
      TailItems(b);
      SortedByIdUnique(a[1..], b[1..]);
      assert a == [a[0]] + a[1..] && b == [b[0]] + b[1..];
    }
  }

  lemma HeadsAreOne(a: seq<Module>, b: seq<Module>)
    requires Sorted(a, IdLeq) && Sorted(b, IdLeq) && DistinctIds(a) && multiset(a) == multiset(b) && a != [] && b != []
    ensures a[0] == b[0]
  {
    assert a[0] in multiset(b) && b[0] in multiset(a);
    var i :| 0 <= i < |b| && b[i] == a[0];
    var j :| 0 <= j < |a| && a[j] == b[0];
    assert j > 0 ==> IdLeq(a[0], a[j]);
    assert i > 0 ==> IdLeq(b[0], b[i]);
    StrTotal(a[0].id, b[0].id);
  }

  /** Two locks hold the same modules, listed in any order, exactly when their sorted
      modules are the same. */
  lemma SortedAgreeIff(rules: Rules, profile: Option<string>, a: seq<Module>, profile': Option<string>, b: seq<Module>)
    requires CreateLock(rules, profile, a).Some? && CreateLock(rules, profile', b).Some?
    ensures Sort(a, IdLeq) == Sort(b, IdLeq) <==> multiset(a) == multiset(b)
  {
    hide ModuleOk;
    IdPreorder();
    SortPermutes(a, IdLeq);
    SortPermutes(b, IdLeq);
    SortSorts(a, IdLeq);
    SortSorts(b, IdLeq);
    if multiset(a) == multiset(b) {
      SortedByIdUnique(Sort(a, IdLeq), Sort(b, IdLeq));
    }
  }

  /** A written lock verifies as current against another exactly when both hold the same
      profile and the same modules, in any order; otherwise it is stale, and the two
      digests say which is which. */
  lemma VerifyWritten(rules: Rules, lock: WorkspaceLock, profile: Option<string>, modules: seq<Module>)
    requires Injective(rules) && WriteLock(rules, lock).Ok? && CreateLock(rules, profile, modules).Some?
    ensures var doc, current := WriteLock(rules, lock).value, CreateLock(rules, profile, modules).value;
            && (VerifyLock(rules, Some(doc), current) == Ok(Current) <==>
                  lock.profile == profile && multiset(lock.modules) == multiset(modules))
            && (VerifyLock(rules, Some(doc), current) != Ok(Current) ==>
                  VerifyLock(rules, Some(doc), current) == Ok(Stale(current.digest, lock.digest)))
  {
    WriteThenLoad(rules, lock);
    SortedAgreeIff(rules, lock.profile, lock.modules, profile, modules);
    var written, current := CreateLock(rules, lock.profile, lock.modules).value, CreateLock(rules, profile, modules).value;
    DigestsAgreeIff(rules, written, current);
    hide LoadLock, ModuleOk, Injective;
  }

  lemma DigestsAgreeIff(rules: Rules, a: WorkspaceLock, b: WorkspaceLock)
    requires Injective(rules)
    requires a.digest == rules.artifact(a.profile, a.modules) && b.digest == rules.artifact(b.profile, b.modules)
    ensures a.digest == b.digest <==> a.profile == b.profile && a.modules == b.modules
  {}

  /** Identities changed under a kept digest: a document that lists other identities than
      those its digest was made from does not load, and the mismatch is what it reports. */
  lemma KeptDigestIsRefused(rules: Rules, lock: WorkspaceLock, profile: Option<string>, ms: seq<Module>, schema: bool,
                            listed: bool)
    requires Injective(rules) && CreateLock(rules, lock.profile, lock.modules) == Some(lock)
    requires CreateLock(rules, profile, ms).Some? && (profile != lock.profile || multiset(ms) != multiset(lock.modules))
    ensures LoadLock(rules, Spelled(profile, ms, lock.digest, schema, listed)) == Err(DigestMismatch)
  {
    SpelledLoads(rules, profile, ms, lock.digest, schema, listed);
    SortedAgreeIff(rules, profile, ms, lock.profile, lock.modules);
    DigestsAgreeIff(rules, CreateLock(rules, profile, ms).value, lock);
    hide LoadLock, ModuleOk, Injective, Spelled;
  }
}
