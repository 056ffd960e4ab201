/** Key generations as a whole: the key files they leave and the key of a path. */
module KeyCeremonies {
  import opened Modular
  import opened Shamir
  import opened PairwiseKeys
  import RoundExchange
  import RoundProgress
  import HdKeys
  import Keygen

  // ---- the keys of the signers ----

  /** A key generation and a state its parties reached. */
  datatype KeyCeremony = KeyCeremony(s: Suite, dealers: seq<Keygen.Dealer>, len: nat, uuid: string,
    store: map<string, Keygen.Msg>, events: seq<RoundExchange.Event<Keygen.Msg>>)

  ghost predicate HonestCeremony(k: KeyCeremony) {
    && Keygen.HonestDealers(k.s, k.dealers, k.len) && |k.dealers| < k.s.q
    && RoundExchange.FreshSession(Keygen.Session(k.s, k.dealers, k.uuid), k.store)
  }

  ghost function StateOf(k: KeyCeremony): RoundExchange.System<Keygen.Msg>
    requires k.s.q > 0
  {
    RoundExchange.Run(Keygen.Session(k.s, k.dealers, k.uuid), k.store, k.events)
  }

  /** Party id came to the end of the ceremony and saved this key file. */
  ghost predicate Saved(k: KeyCeremony, id: nat, file: Keygen.KeyFile)
    requires k.s.q > 0
  {
    && 1 <= id <= |k.dealers| && id <= |StateOf(k).parties|
    && |StateOf(k).parties[id - 1].done| == |Keygen.ROUNDS|
    && file == Keygen.Output(k.s, k.dealers[id - 1], id, StateOf(k).parties[id - 1].done)
  }

  lemma SavedIsExpected(k: KeyCeremony, id: nat, file: Keygen.KeyFile)
    requires HonestCeremony(k) && Saved(k, id, file)
    ensures SameLength(Keygen.Polys(k.dealers), k.len)
    ensures file == Keygen.Expected(k.s, k.dealers, k.len, id)
  {
    Keygen.KeygenCorrect(k.s, k.dealers, k.len, k.uuid, k.store, k.events, id);
  }

  /** Everybody has come to the end and saved its file. */
  ghost predicate AllSaved(k: KeyCeremony, files: seq<Keygen.KeyFile>)
    requires k.s.q > 0
  {
    |files| == |k.dealers| && forall i :: 0 <= i < |files| ==> Saved(k, i + 1, files[i])
  }

  ghost function Files(k: KeyCeremony): (files: seq<Keygen.KeyFile>)
    requires k.s.q > 0 && RoundProgress.AllPast(Keygen.Session(k.s, k.dealers, k.uuid), StateOf(k), |Keygen.ROUNDS|)
    ensures AllSaved(k, files)
  {
    seq(|k.dealers|, i requires 0 <= i < |k.dealers| =>
      Keygen.Output(k.s, k.dealers[i], i + 1, StateOf(k).parties[i].done))
  }

  /** As long as nothing expires and all pairwise keys fit, a ceremony can be carried on until
      everybody has saved its file. */
  lemma AllCanSave(k: KeyCeremony) returns (done: KeyCeremony, files: seq<Keygen.KeyFile>)
    requires HonestCeremony(k) && Keygen.KeysFit(k.s, k.dealers)
    requires RoundProgress.NoExpiry(Keygen.Session(k.s, k.dealers, k.uuid), k.events)
    ensures HonestCeremony(done) && done == k.(events := done.events) && k.events <= done.events && AllSaved(done, files)
  {
    var pr := Keygen.Session(k.s, k.dealers, k.uuid);
    Keygen.SessionValid(k.s, k.dealers, k.uuid);
    Keygen.SoundIff(k.s, k.dealers, k.len, k.uuid);
    var all := RoundProgress.CanReach(pr, k.store, k.events, |Keygen.ROUNDS|);
    done := k.(events := all);
    files := Files(done);
  }

  /** And every ceremony that neglects nobody for long enough gets there by itself. */
  lemma FairRunsSave(k: KeyCeremony, stretches: nat) returns (files: seq<Keygen.KeyFile>)
    requires HonestCeremony(k) && Keygen.KeysFit(k.s, k.dealers)
    requires RoundProgress.NoExpiry(Keygen.Session(k.s, k.dealers, k.uuid), k.events)
    requires RoundProgress.Fair(k.events, |k.dealers|, |k.events|, stretches)
    requires stretches > RoundProgress.AllWork(|k.dealers|, |k.dealers|, |Keygen.ROUNDS|)
    ensures AllSaved(k, files)
  {
    Keygen.SessionValid(k.s, k.dealers, k.uuid);
    Keygen.SoundIff(k.s, k.dealers, k.len, k.uuid);
    RoundProgress.FairRunsFinish(Keygen.Session(k.s, k.dealers, k.uuid), k.store, k.events, stretches, |Keygen.ROUNDS|);
    files := Files(k);
  }

  // ---- the key of a path ----

  /** A path as the signers ask for it, with the tweak and the key it leads to. */
  datatype PathKey = PathKey(path: seq<nat>, atPath: bool, f: int, y: int)

  /** What a signer derives from its file: the root key and no tweak when there is no path. */
  ghost predicate Derives(c: HdKeys.Curve, q: int, file: Keygen.KeyFile, d: PathKey) {
    if d.atPath then
      && c.q == q && q > 0
      && var n := HdKeys.GetHdKey(c, file.y, d.path, file.chainCode);
         n.Some? && n.value.pub == d.y && n.value.f == d.f
    else d.f == 0 && d.y == file.y
  }

  /** The key is the base key moved by the tweak. */
  ghost predicate Moved(y: int, base: int, f: int, q: int) {
    q > 0 && y == Mod(base + f, q)
  }

  /** Every signer of a ceremony derives the root key moved by the tweak. */
  lemma DerivedKey(k: KeyCeremony, id: nat, file: Keygen.KeyFile, c: HdKeys.Curve, d: PathKey)
    requires HonestCeremony(k) && Saved(k, id, file) && Derives(c, k.s.q, file, d)
    ensures Moved(d.y, file.y, d.f, k.s.q)
  {
    SavedIsExpected(k, id, file);
    DerivedIsTweaked(c, k.s.q, file, d);
  }

  lemma DerivedIsTweaked(c: HdKeys.Curve, q: int, file: Keygen.KeyFile, d: PathKey)
    requires 0 <= file.y < q && Derives(c, q, file, d)
    ensures Moved(d.y, file.y, d.f, q)
  {
    if d.atPath {
      HdKeys.ChildKeyIsTweaked(c, file.y, d.path, file.chainCode);
    } else {
      ModSmall(file.y, q);
    }
  }
}
