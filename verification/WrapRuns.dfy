/** Wrapping and unwrapping against the stored keys: when a cluster's keyring
    loads, and that what one load encrypts every later load decrypts. */
module WrapRuns {
  import opened KeyRefs
  import opened Results
  import opened KeyTables
  import opened KeyTransactions
  import C = CommandRuns
  import P = KeyProtection
  import K = Keyring

  /** The records read for one cluster: each of its rows once, in some order. */
  ghost predicate Lists(t: Tables, c: string, records: seq<P.ProtectedKey>) {
    && (forall i | 0 <= i < |records| ::
          records[i].ref.clusterId == c && records[i].ref in t.keys
          && records[i] == RecordOf(records[i].ref, t.keys[records[i].ref]))
    && (forall ref | ref in t.keys && ref.clusterId == c :: exists i | 0 <= i < |records| :: records[i].ref == ref)
    && (forall i, j | 0 <= i < j < |records| :: records[i].ref != records[j].ref)
  }

  ghost predicate OnlyKeyring(t: Tables, c: string, k: string) {
    (c, k) in t.keyrings && forall k' | (c, k') in t.keyrings :: k' == k
  }

  ghost predicate ClusterOpens(t: Tables, c: string) {
    forall ref | ref in t.keys && ref.clusterId == c :: P.Opens(RecordOf(ref, t.keys[ref]))
  }

  // ---------------------------------------------------------------------
  // When a keyring loads
  // ---------------------------------------------------------------------

  /** Where a row is in a listing. */
  lemma Position(t: Tables, c: string, records: seq<P.ProtectedKey>, ref: KeyRef) returns (i: nat)
    requires Lists(t, c, records) && ref in t.keys && ref.clusterId == c
    ensures i < |records| && records[i] == RecordOf(ref, t.keys[ref])
  {
    i :| 0 <= i < |records| && records[i].ref == ref;
  }

  lemma ActiveRow(t: Tables, c: string, k: string) returns (ref: KeyRef)
    requires Inv(t) && (c, k) in t.keyrings
    ensures ref in t.keys && ref.clusterId == c && ref.keyId == k && t.keys[ref].status.Active?
    ensures exists top: Uint32 :: Shape(t, c, k, ref.version, top)
    ensures forall r | r in t.keys && r.clusterId == c && r.keyId == k && t.keys[r].status.Active? :: r == ref
  {
    hide ValidRows, DistinctTargets, References;
    var ck := (c, k);
    assert Shaped(t, ck.0, ck.1);
    var a: Uint32, n: Uint32 :| Shape(t, c, k, a, n);
    ref := KeyRef(c, k, a);
    forall r | r in t.keys && r.clusterId == c && r.keyId == k && t.keys[r].status.Active? ensures r == ref {
      assert r == KeyRef(c, k, r.version);
    }
  }

  /** The position of the active version in the ring of a single keyring. */
  lemma ActivePosition(t: Tables, c: string, k: string, records: seq<P.ProtectedKey>) returns (i: nat)
    requires Inv(t) && Lists(t, c, records) && OnlyKeyring(t, c, k)
    ensures K.ActiveAt(P.UnprotectAll(records), i)
    ensures records[i].ref.keyId == k && exists top: Uint32 :: Shape(t, c, k, records[i].ref.version, top)
  {
    hide ValidRows, DistinctTargets, Shaped, Shape;
    var ref := ActiveRow(t, c, k);
    i := Position(t, c, records, ref);
    forall j | 0 <= j < |records| ensures records[j].status.Active? <==> j == i {
      assert (c, records[j].ref.keyId) in t.keyrings by { RowKeyring(t, records[j].ref); }
      if j < i {
        assert records[j].ref != records[i].ref;
      }
      if i < j {
        assert records[i].ref != records[j].ref;
      }
    }
  }

  lemma RowKeyring(t: Tables, ref: KeyRef)
    requires References(t) && ref in t.keys
    ensures (ref.clusterId, ref.keyId) in t.keyrings
  {
  }

  /** A cluster's keyring loads exactly when the cluster has a single key
      identifier and every one of its rows opens. */
  lemma LoadsIff(t: Tables, c: string, records: seq<P.ProtectedKey>)
    requires Inv(t) && Lists(t, c, records)
    ensures P.Loadable(records) <==> ClusterOpens(t, c) && exists k :: OnlyKeyring(t, c, k)
  {
    hide Inv, P.Opens, OnlyKeyring;
    if P.Loadable(records) {
      LoadedOpens(t, c, records);
      LoadedIsAlone(t, c, records);
    }
    if ClusterOpens(t, c) && exists k :: OnlyKeyring(t, c, k) {
      var k :| OnlyKeyring(t, c, k);
      AloneLoads(t, c, k, records);
    }
  }

  lemma LoadedOpens(t: Tables, c: string, records: seq<P.ProtectedKey>)
    requires Lists(t, c, records) && P.Loadable(records)
    ensures ClusterOpens(t, c)
  {
    hide P.Opens;
    forall ref | ref in t.keys && ref.clusterId == c ensures P.Opens(RecordOf(ref, t.keys[ref])) {
      var i := Position(t, c, records, ref);
    }
  }

  lemma LoadedIsAlone(t: Tables, c: string, records: seq<P.ProtectedKey>)
    requires Inv(t) && Lists(t, c, records) && P.Loadable(records)
    ensures exists k :: OnlyKeyring(t, c, k)
  {
    hide P.Opens, P.ValidRecord, ValidRows, DistinctTargets, Shaped;
    var a :| 0 <= a < |P.UnprotectAll(records)| && K.ActiveAt(P.UnprotectAll(records), a);
    var k := records[a].ref.keyId;
    RowKeyring(t, records[a].ref);
    forall k' | (c, k') in t.keyrings ensures k' == k {
      var ref := ActiveRow(t, c, k');
      var i := Position(t, c, records, ref);
      assert P.UnprotectAll(records)[i].status.Active?;
    }
    assert OnlyKeyring(t, c, k);
  }

  lemma AloneLoads(t: Tables, c: string, k: string, records: seq<P.ProtectedKey>)
    requires Inv(t) && Lists(t, c, records) && ClusterOpens(t, c) && OnlyKeyring(t, c, k)
    ensures P.Loadable(records)
  {
    hide Inv, P.Opens, K.ValidVersion;
    var versions := P.UnprotectAll(records);
    forall i | 0 <= i < |records| ensures P.Opens(records[i]) && K.ValidVersion(versions[i]) {
      P.UnprotectOpens(records[i]);
    }
    var a := ActivePosition(t, c, k, records);
    assert K.DistinctRefs(versions);
  }

  // ---------------------------------------------------------------------
  // Round trips across rotations
  // ---------------------------------------------------------------------

  /** What the keyring of one moment encrypts, the keyring of any later moment
      decrypts, and the label names the version active when it was loaded. */
  lemma BlobSurvives(a: K.Aead, t: Tables, t': Tables, c: string,
                     records: seq<P.ProtectedKey>, records': seq<P.ProtectedKey>,
                     plaintext: K.Bytes, caller: K.Bytes, nonce: K.Bytes)
    requires K.SoundAead(a) && |nonce| == K.NONCE_SIZE
    requires Inv(t) && Inv(t') && Later(t, t')
    requires Lists(t, c, records) && Lists(t', c, records')
    requires P.Loadable(records) && P.Loadable(records')
    ensures K.Encrypt(a, K.Ring(P.UnprotectAll(records)), plaintext, caller, nonce).Ok?
    ensures exists k, active: Uint32, top: Uint32 ::
              Shape(t, c, k, active, top)
              && K.Encrypt(a, K.Ring(P.UnprotectAll(records)), plaintext, caller, nonce).value.keyLabel
                 == Label(KeyRef(c, k, active))
    ensures K.Decrypt(a, K.Ring(P.UnprotectAll(records')),
                      K.Encrypt(a, K.Ring(P.UnprotectAll(records)), plaintext, caller, nonce).value, caller)
            == Ok(plaintext)
  {
    hide Inv, P.Opens, Shape, OnlyKeyring, K.Encrypt, K.Decrypt, K.ValidRing, K.SoundAead;
    LoadsIff(t, c, records);
    var k :| OnlyKeyring(t, c, k);
    var i := ActivePosition(t, c, k, records);
    var ref := records[i].ref;
    assert ref == KeyRef(c, k, ref.version);
    var j := Position(t', c, records', ref);
    assert K.SameKey(P.UnprotectAll(records)[i], P.UnprotectAll(records')[j]) && K.Decrypts(records'[j].status);
    K.DecryptInvertsEncrypt(a, K.Ring(P.UnprotectAll(records)), K.Ring(P.UnprotectAll(records')), plaintext, caller,
        nonce, i, j);
  }

  /** Activation only ever moves the active version up, so a version read
      before a load is at most the one the load encrypts with. */
  lemma ActiveNeverDrops(t: Tables, t': Tables, c: string, k: string, a: Uint32, n: Uint32, a': Uint32, n': Uint32)
    requires Later(t, t') && Shape(t, c, k, a, n) && Shape(t', c, k, a', n')
    ensures a <= a' && n <= n'
  {
    assert KeyRef(c, k, a) in t.keys && KeyRef(c, k, n) in t.keys;
    assert K.Decrypts(t'.keys[KeyRef(c, k, a)].status);
  }

  /** A rotation started with a key that does not open stops the whole cluster
      from loading; any other start leaves loading as it was. */
  lemma StartLoadsIff(t: Tables, id: string, key: P.ProtectedKey, now: int,
                      records: seq<P.ProtectedKey>, records': seq<P.ProtectedKey>)
    requires Inv(t) && Starts(t, id, key)
    requires Lists(t, key.ref.clusterId, records)
    requires Lists(Apply(t, Start(id, key, now)), key.ref.clusterId, records')
    ensures P.Loadable(records') <==> P.Loadable(records) && P.Opens(key)
  {
    hide Inv, P.Opens, P.Loadable, Lists, Shape;
    var t' := Apply(t, Start(id, key, now));
    var c := key.ref.clusterId;
    ApplyKeepsInv(t, Start(id, key, now));
    LoadsIff(t, c, records);
    LoadsIff(t', c, records');
    assert RecordOf(key.ref, RowOf(key)) == key;
    var top: Uint32 :| Shape(t, c, key.ref.keyId, top, top) && key.ref.version == top + 1;
    AboveTop(t, key.ref, top);
    assert forall k :: OnlyKeyring(t, c, k) <==> OnlyKeyring(t', c, k);
    assert forall ref | ref in t.keys :: ref in t'.keys && t'.keys[ref] == t.keys[ref];
    assert key.ref in t'.keys && t'.keys[key.ref] == RowOf(key);
  }

  /** Under the commands every stored key opens: as long as the cluster has one
      key identifier its keyring loads at every moment, and every blob decrypts
      ever after. */
  lemma CommandsKeepBlobs(a: K.Aead, before: seq<C.Event>, after: seq<C.Event>, c: string, k: string,
                          records: seq<P.ProtectedKey>, records': seq<P.ProtectedKey>,
                          plaintext: K.Bytes, caller: K.Bytes, nonce: K.Bytes)
    requires K.SoundAead(a) && |nonce| == K.NONCE_SIZE
    requires OnlyKeyring(C.Reached(before).tables, c, k)
    requires OnlyKeyring(C.Run(C.Reached(before), after).tables, c, k)
    requires Lists(C.Reached(before).tables, c, records)
    requires Lists(C.Run(C.Reached(before), after).tables, c, records')
    ensures P.Loadable(records) && P.Loadable(records')
    ensures K.Encrypt(a, K.Ring(P.UnprotectAll(records)), plaintext, caller, nonce).Ok?
    ensures K.Decrypt(a, K.Ring(P.UnprotectAll(records')),
                      K.Encrypt(a, K.Ring(P.UnprotectAll(records)), plaintext, caller, nonce).value, caller)
            == Ok(plaintext)
  {
    hide Inv, P.Opens, P.Loadable, Lists, Later, OnlyKeyring, K.Encrypt, K.Decrypt, K.SoundAead, C.Run, C.Reached;
    var s := C.Reached(before);
    var s' := C.Run(s, after);
    C.RunLater(s, after);
    AloneLoads(s.tables, c, k, records);
    AloneLoads(s'.tables, c, k, records');
    BlobSurvives(a, s.tables, s'.tables, c, records, records', plaintext, caller, nonce);
  }
}
