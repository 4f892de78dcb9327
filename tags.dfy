/**
 * The `tags` endpoint: every label a user can filter backups by, namely the
 * keys of the registered compression, encryption, backend and generic
 * modules and the tags of every stored backup, lower-cased and without
 * repetition.
 */
module Tags {
  import opened Wrappers
  import opened Text
  import opened Linq
  import opened Payload
  import opened WebServer

  /** A registered module as the server settings list it; the endpoint reads only its key. */
  datatype ModuleEntry = ModuleEntry(key: string)

  /** A stored backup; the endpoint reads only its tags. */
  datatype Backup = Backup(tags: seq<string>)

  predicate Registered(m: ModuleEntry, compression: seq<ModuleEntry>, encryption: seq<ModuleEntry>,
                       backend: seq<ModuleEntry>, generic: seq<ModuleEntry>) {
    m in compression || m in encryption || m in backend || m in generic
  }

  /** The four categories united, then each module's key lower-cased. */
  function ModuleTags(compression: seq<ModuleEntry>, encryption: seq<ModuleEntry>,
                      backend: seq<ModuleEntry>, generic: seq<ModuleEntry>): seq<string> {
    Select(Union(Union(Union(compression, encryption), backend), generic), (m: ModuleEntry) => Lower(m.key))
  }

  /** Every tag of every backup, lower-cased, backup by backup. */
  function BackupTags(backups: seq<Backup>): seq<string> {
    SelectMany(backups, (b: Backup) => Select(b.tags, Lower))
  }

  /** The endpoint's answer: the module keys united with the backup tags. */
  function AllTags(compression: seq<ModuleEntry>, encryption: seq<ModuleEntry>, backend: seq<ModuleEntry>,
                   generic: seq<ModuleEntry>, backups: seq<Backup>): seq<string> {
    Union(ModuleTags(compression, encryption, backend, generic), BackupTags(backups))
  }

  lemma ModuleTagsSpec(compression: seq<ModuleEntry>, encryption: seq<ModuleEntry>,
                       backend: seq<ModuleEntry>, generic: seq<ModuleEntry>)
    ensures forall t :: t in ModuleTags(compression, encryption, backend, generic) <==>
      exists m :: Registered(m, compression, encryption, backend, generic) && t == Lower(m.key)
  {
    var u1 := Union(compression, encryption);
    var u2 := Union(u1, backend);
    var u3 := Union(u2, generic);
    UnionSpec(compression, encryption);
    UnionSpec(u1, backend);
    UnionSpec(u2, generic);
    var f := (m: ModuleEntry) => Lower(m.key);
    var r := ModuleTags(compression, encryption, backend, generic);
    forall t | t in r
      ensures exists m :: Registered(m, compression, encryption, backend, generic) && t == Lower(m.key)
    {
      var i :| 0 <= i < |r| && r[i] == t;
      assert u3[i] in u3;
    }
    forall t | exists m :: Registered(m, compression, encryption, backend, generic) && t == Lower(m.key)
      ensures t in r
    {
      var m :| Registered(m, compression, encryption, backend, generic) && t == Lower(m.key);
      var i :| 0 <= i < |u3| && u3[i] == m;
      assert r[i] == t;
    }
  }

  lemma BackupTagsSpec(backups: seq<Backup>)
    ensures forall t :: t in BackupTags(backups) <==>
      exists b, x :: b in backups && x in b.tags && t == Lower(x)
  {
    var f := (b: Backup) => Select(b.tags, Lower);
    SelectManySpec(backups, f);
    forall t | t in BackupTags(backups)
      ensures exists b, x :: b in backups && x in b.tags && t == Lower(x)
    {
      var b :| b in backups && t in f(b);
      var i :| 0 <= i < |b.tags| && f(b)[i] == t;
      assert b.tags[i] in b.tags;
    }
    forall t | exists b, x :: b in backups && x in b.tags && t == Lower(x)
      ensures t in BackupTags(backups)
    {
      var b, x :| b in backups && x in b.tags && t == Lower(x);
      var i :| 0 <= i < |b.tags| && b.tags[i] == x;
      assert f(b)[i] == t;
    }
  }

  /** Nothing but lower-cased module keys and lower-cased backup tags appears, and all of them do. */
  lemma AllTagsSpec(compression: seq<ModuleEntry>, encryption: seq<ModuleEntry>, backend: seq<ModuleEntry>,
                    generic: seq<ModuleEntry>, backups: seq<Backup>)
    ensures forall t :: t in AllTags(compression, encryption, backend, generic, backups) <==>
      (exists m :: Registered(m, compression, encryption, backend, generic) && t == Lower(m.key)) ||
      (exists b, x :: b in backups && x in b.tags && t == Lower(x))
    ensures NoDuplicates(AllTags(compression, encryption, backend, generic, backups))
  {
    UnionSpec(ModuleTags(compression, encryption, backend, generic), BackupTags(backups));
    ModuleTagsSpec(compression, encryption, backend, generic);
    BackupTagsSpec(backups);
  }

  /** Every registered module's key and every backup's tag is listed, lower-cased. */
  lemma AllTagsComplete(compression: seq<ModuleEntry>, encryption: seq<ModuleEntry>, backend: seq<ModuleEntry>,
                        generic: seq<ModuleEntry>, backups: seq<Backup>)
    ensures forall m :: Registered(m, compression, encryption, backend, generic) ==>
      Lower(m.key) in AllTags(compression, encryption, backend, generic, backups)
    ensures forall b, x :: b in backups && x in b.tags ==>
      Lower(x) in AllTags(compression, encryption, backend, generic, backups)
  {
    AllTagsSpec(compression, encryption, backend, generic, backups);
  }

  /**
   * Every label is already lower-case, so no two labels are equal ignoring
   * case: labels that differ only in case have collapsed into one.
   */
  lemma AllTagsCaseDistinct(compression: seq<ModuleEntry>, encryption: seq<ModuleEntry>, backend: seq<ModuleEntry>,
                            generic: seq<ModuleEntry>, backups: seq<Backup>)
    ensures var r := AllTags(compression, encryption, backend, generic, backups);
      (forall t :: t in r ==> Lower(t) == t) &&
      (forall i, j :: 0 <= i < j < |r| ==> Lower(r[i]) != Lower(r[j]))
  {
    var r := AllTags(compression, encryption, backend, generic, backups);
    AllTagsSpec(compression, encryption, backend, generic, backups);
    forall t | t in r
      ensures Lower(t) == t
    {
      if m :| Registered(m, compression, encryption, backend, generic) && t == Lower(m.key) {
        LowerIdempotent(m.key);
      } else {
        var b, x :| b in backups && x in b.tags && t == Lower(x);
        LowerIdempotent(x);
      }
    }
    forall i, j | 0 <= i < j < |r|
      ensures Lower(r[i]) != Lower(r[j])
    {
      assert r[i] in r && r[j] in r;
    }
  }

  /** An encryption module `AES` and a backup tagged `aes` give the single label `aes`. */
  lemma AesCollapses()
    ensures AllTags([], [ModuleEntry("AES")], [], [], [Backup(["aes"])]) == ["aes"]
  {
    var aes := ModuleEntry("AES");
    assert Lower("AES") == "aes";
    assert Lower("aes") == "aes";
    assert [] + [aes] == [aes] && [aes] + [] == [aes];
    assert DistinctFrom([aes], {}) == [aes];
    assert Union(Union(Union([], [aes]), []), []) == [aes];
    assert ModuleTags([], [aes], [], []) == ["aes"];
    var backups := [Backup(["aes"])];
    assert backups[1..] == [];
    assert BackupTags(backups) == ["aes"];
    assert ["aes"] + ["aes"] == ["aes", "aes"];
    assert DistinctFrom(["aes", "aes"], {}) == ["aes"] by {
      assert ["aes", "aes"][1..] == ["aes"];
      assert DistinctFrom(["aes"], {"aes"}) == [];
    }
  }

  /** `GET /tags`: status 200 and the labels as the body. */
  method Get(w: BodyWriter, compression: seq<ModuleEntry>, encryption: seq<ModuleEntry>, backend: seq<ModuleEntry>,
             generic: seq<ModuleEntry>, backups: seq<Backup>) returns (ok: bool)
    requires w.Valid()
    modifies w, w.resp
    ensures w.Valid() && ok == !old(w.disposed)
    ensures w.resp.status == StatusOK && w.resp.reason == "OK"
    ensures ok ==> w.disposed && w.resp.headersSent
    ensures ok ==>
      w.resp.State() == Answered(old(w.resp.State()), w.resp.body) &&
      w.resp.sends == old(w.resp.sends) + (if old(w.resp.headersSent) then 0 else 1)
    ensures !ok ==>
      w.resp.State() == old(w.resp.State()).(status := StatusOK, reason := "OK") &&
      w.resp.sends == old(w.resp.sends) && w.disposed && w.buffer == old(w.buffer)
    ensures ok ==>
      w.resp.body == old(w.resp.body) + old(w.buffer) +
                     Frame(w.jsonp, w.json(Strings(AllTags(compression, encryption, backend, generic, backups))))
  {
    var r := AllTags(compression, encryption, backend, generic, backups);
    ok := w.OutputOK(Some(Strings(r)));
  }
}
