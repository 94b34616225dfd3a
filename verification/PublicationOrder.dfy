/**
 Publishing wave by wave: every crate is packaged once and uploaded once if the registry lacks
 it, and never before everything it depends on is visible.
 */
module PublicationOrder {
  import opened Prelude
  import opened ByteOrder
  import opened Publication
  import opened PublicationWaves

  /** What the publisher does: package a crate, upload it, or see uploaded crates indexed. */
  datatype Action = Package(crate: Text) | Upload(crate: Text) | Indexed(crates: set<Text>)

  /** How often an action occurs. */
  function Times(log: seq<Action>, a: Action): nat
  {
    if log == [] then 0 else Times(log[..|log| - 1], a) + if log[|log| - 1] == a then 1 else 0
  }

  /** Crates a build can resolve: on the registry from the start, or indexed since. */
  function Visible(existing: set<Text>, log: seq<Action>): set<Text>
  {
    if log == [] then existing
    else Visible(existing, log[..|log| - 1]) + if log[|log| - 1].Indexed? then log[|log| - 1].crates else {}
  }

  /**
   What the action may rely on: packaging needs every dependency visible, uploading needs the
   package and a registry without the crate, and only uploaded crates can be indexed.
   */
  predicate Founded(g: Graph, existing: set<Text>, before: seq<Action>, a: Action)
  {
    match a
    case Package(c) => c in g && g[c] <= Visible(existing, before)
    case Upload(c) => c in g && g[c] <= Visible(existing, before) && c !in existing && Times(before, Package(c)) > 0
    case Indexed(cs) => forall c :: c in cs ==> Times(before, Upload(c)) > 0
  }

  predicate InOrder(g: Graph, existing: set<Text>, log: seq<Action>)
  {
    log == [] || (InOrder(g, existing, log[..|log| - 1]) && Founded(g, existing, log[..|log| - 1], log[|log| - 1]))
  }

  lemma Act(g: Graph, existing: set<Text>, log: seq<Action>, a: Action)
    requires InOrder(g, existing, log) && Founded(g, existing, log, a)
    ensures InOrder(g, existing, log + [a])
    ensures Visible(existing, log + [a]) == Visible(existing, log) + if a.Indexed? then a.crates else {}
  {
    assert (log + [a])[..|log|] == log;
  }

  /** Every crate of the wave depends only on visible crates. */
  predicate Buildable(g: Graph, wave: seq<Text>, visible: set<Text>)
  {
    forall i :: 0 <= i < |wave| ==> wave[i] in g && g[wave[i]] <= visible
  }

  /** `after` adds to `before` exactly one packaging of each of the first `n` crates. */
  ghost predicate Packaged(before: seq<Action>, after: seq<Action>, wave: seq<Text>, n: nat)
    requires n <= |wave|
  {
    forall a :: Times(after, a) == Times(before, a) + if a.Package? && a.crate in wave[..n] then 1 else 0
  }

  /** `after` adds to `before` exactly one upload of each of the first `n` crates the registry lacks. */
  ghost predicate Uploaded(before: seq<Action>, after: seq<Action>, existing: set<Text>, wave: seq<Text>, n: nat)
    requires n <= |wave|
  {
    forall a :: Times(after, a) ==
                Times(before, a) + if a.Upload? && a.crate in wave[..n] && a.crate !in existing then 1 else 0
  }

  lemma FreshInSorted(wave: seq<Text>, i: nat)
    requires Sorted(wave) && i < |wave|
    ensures wave[i] !in wave[..i] && forall c :: c in wave[..i + 1] <==> c in wave[..i] || c == wave[i]
  {
    assert wave[..i + 1] == wave[..i] + [wave[i]];
    forall k | 0 <= k < i ensures wave[k] != wave[i] {
      LessTrichotomy(wave[k], wave[i]);
    }
  }

  lemma TimesAppend(log: seq<Action>, a: Action, b: Action)
    ensures Times(log + [a], b) == Times(log, b) + if a == b then 1 else 0
  {
    assert (log + [a])[..|log|] == log;
  }

  lemma PackagedNext(before: seq<Action>, log: seq<Action>, wave: seq<Text>, i: nat)
    requires Sorted(wave) && i < |wave| && Packaged(before, log, wave, i)
    ensures Packaged(before, log + [Package(wave[i])], wave, i + 1)
  {
    FreshInSorted(wave, i);
    forall a ensures Times(log + [Package(wave[i])], a) ==
                     Times(before, a) + if a.Package? && a.crate in wave[..i + 1] then 1 else 0
    {
      TimesAppend(log, Package(wave[i]), a);
    }
  }

  lemma UploadedNext(before: seq<Action>, log: seq<Action>, existing: set<Text>, wave: seq<Text>, i: nat)
    requires Sorted(wave) && i < |wave| && Uploaded(before, log, existing, wave, i)
    ensures Uploaded(before, if wave[i] in existing then log else log + [Upload(wave[i])], existing, wave, i + 1)
  {
    FreshInSorted(wave, i);
    var after := if wave[i] in existing then log else log + [Upload(wave[i])];
    forall a ensures Times(after, a) ==
                     Times(before, a) + if a.Upload? && a.crate in wave[..i + 1] && a.crate !in existing then 1 else 0
    {
      TimesAppend(log, Upload(wave[i]), a);
    }
  }

  method PackageWave(g: Graph, existing: set<Text>, wave: seq<Text>, log: seq<Action>) returns (log': seq<Action>)
    requires InOrder(g, existing, log) && Sorted(wave) && Buildable(g, wave, Visible(existing, log))
    ensures InOrder(g, existing, log') && Visible(existing, log') == Visible(existing, log)
    ensures Packaged(log, log', wave, |wave|)
  {
    log' := log;
    for i := 0 to |wave|
      invariant InOrder(g, existing, log') && Visible(existing, log') == Visible(existing, log)
      invariant Packaged(log, log', wave, i)
    {
      PackagedNext(log, log', wave, i);
      Act(g, existing, log', Package(wave[i]));
      log' := log' + [Package(wave[i])];
    }
  }

  /** The crate at `k` is the first of the wave that exists with other content. */
  predicate FirstDiffers(wave: seq<Text>, differing: set<Text>, k: nat)
  {
    k < |wave| && wave[k] in differing && Elements(wave[..k]) !! differing
  }

  ghost predicate UploadsEndAt(before: seq<Action>, after: seq<Action>, existing: set<Text>, differing: set<Text>,
                               wave: seq<Text>, k: nat)
  {
    FirstDiffers(wave, differing, k) && Uploaded(before, after, existing, wave, k)
  }

  /** The first `i` crates have been looked at: none differs, and those the registry lacks were uploaded. */
  ghost predicate Uploading(before: seq<Action>, log: seq<Action>, existing: set<Text>, differing: set<Text>,
                            wave: seq<Text>, i: nat, uploaded: set<Text>)
  {
    forall key: nat {:trigger Unlock(key)} :: Unlock(key) ==>
      && i <= |wave| && uploaded == Elements(wave[..i]) - existing && Elements(wave[..i]) !! differing
      && Uploaded(before, log, existing, wave, i)
  }

  lemma UploadingNone(log: seq<Action>, existing: set<Text>, differing: set<Text>, wave: seq<Text>)
    ensures Uploading(log, log, existing, differing, wave, 0, {})
  {
  }

  lemma UploadingNext(before: seq<Action>, log: seq<Action>, existing: set<Text>, differing: set<Text>,
                      wave: seq<Text>, i: nat, uploaded: set<Text>)
    requires Uploading(before, log, existing, differing, wave, i, uploaded) && Sorted(wave) && i < |wave|
    ensures var c := wave[i];
            if c in differing then UploadsEndAt(before, log, existing, differing, wave, i)
            else if c in existing then Uploading(before, log, existing, differing, wave, i + 1, uploaded)
            else Uploading(before, log + [Upload(c)], existing, differing, wave, i + 1, uploaded + {c})
  {
    assert Unlock(0);
    FreshInSorted(wave, i);
    UploadedNext(before, log, existing, wave, i);
    assert Elements(wave[..i + 1]) == Elements(wave[..i]) + {wave[i]};
  }

  lemma UploadingAll(before: seq<Action>, log: seq<Action>, existing: set<Text>, differing: set<Text>,
                     wave: seq<Text>, uploaded: set<Text>)
    requires Uploading(before, log, existing, differing, wave, |wave|, uploaded)
    ensures Elements(wave) !! differing && uploaded == Elements(wave) - existing
    ensures Uploaded(before, log, existing, wave, |wave|)
  {
    assert Unlock(0);
    assert wave[..|wave|] == wave;
  }

  /** Upload what is missing; a crate that exists with other content ends the release. */
  method UploadWave(g: Graph, existing: set<Text>, differing: set<Text>, wave: seq<Text>, log: seq<Action>)
    returns (ok: bool, log': seq<Action>, uploaded: set<Text>)
    requires InOrder(g, existing, log) && Sorted(wave) && Buildable(g, wave, Visible(existing, log))
    requires forall c :: c in wave ==> Times(log, Package(c)) > 0
    ensures InOrder(g, existing, log') && Visible(existing, log') == Visible(existing, log)
    ensures ok <==> Elements(wave) !! differing
    ensures ok ==> uploaded == Elements(wave) - existing && Uploaded(log, log', existing, wave, |wave|)
    ensures !ok ==> exists k :: UploadsEndAt(log, log', existing, differing, wave, k)
  {
    log', uploaded := log, {};
    UploadingNone(log, existing, differing, wave);
    for i := 0 to |wave|
      invariant InOrder(g, existing, log') && Visible(existing, log') == Visible(existing, log)
      invariant Uploading(log, log', existing, differing, wave, i, uploaded)
    {
      var c := wave[i];
      UploadingNext(log, log', existing, differing, wave, i, uploaded);
      if c in differing {
        assert c in Elements(wave);
        return false, log', uploaded;
      }
      if c !in existing {
        StillPackaged(log, log', existing, differing, wave, i, uploaded);
        Act(g, existing, log', Upload(c));
        log' := log' + [Upload(c)];
        uploaded := uploaded + {c};
      }
    }
    UploadingAll(log, log', existing, differing, wave, uploaded);
    return true, log', uploaded;
  }

  lemma StillPackaged(before: seq<Action>, log: seq<Action>, existing: set<Text>, differing: set<Text>,
                      wave: seq<Text>, i: nat, uploaded: set<Text>)
    requires Uploading(before, log, existing, differing, wave, i, uploaded) && i < |wave|
    requires Times(before, Package(wave[i])) > 0
    ensures Times(log, Package(wave[i])) > 0
  {
    assert Unlock(0);
  }

  /** What the log says of the crates published so far, and of all others. */
  ghost predicate Counted(existing: set<Text>, log: seq<Action>, done: set<Text>)
  {
    && (forall c :: Times(log, Package(c)) == if c in done then 1 else 0)
    && (forall c :: Times(log, Upload(c)) == if c in done && c !in existing then 1 else 0)
  }

  ghost predicate Accounted(existing: set<Text>, log: seq<Action>, done: set<Text>)
  {
    Counted(existing, log, done) && Visible(existing, log) == existing + done
  }

  /**
   A release that stopped in a wave after `done`: the wave is packaged, its first `n` crates are
   uploaded where the registry lacked them, and nothing of it has become visible.
   */
  ghost predicate Stopped(existing: set<Text>, log: seq<Action>, done: set<Text>, wave: seq<Text>, n: nat)
  {
    && n <= |wave|
    && (forall c :: Times(log, Package(c)) == if c in done || c in wave then 1 else 0)
    && (forall c :: Times(log, Upload(c)) == if (c in done || c in wave[..n]) && c !in existing then 1 else 0)
    && Visible(existing, log) == existing + done
  }

  /** It stopped at the first crate that differs, or with everything uploaded and not indexed in time. */
  ghost predicate WaveStops(existing: set<Text>, differing: set<Text>, late: bool, log: seq<Action>,
                            done: set<Text>, wave: seq<Text>, n: nat)
  {
    && Stopped(existing, log, done, wave, n)
    && (FirstDiffers(wave, differing, n) || (n == |wave| && late && Elements(wave) !! differing))
  }

  /** Wave `k` stopped the release, after all earlier ones went through. */
  ghost predicate StopsAt(waves: seq<seq<Text>>, existing: set<Text>, differing: set<Text>, slow: Option<nat>,
                          log: seq<Action>, k: nat, n: nat)
  {
    && k < |waves| && Unhindered(waves[..k], existing, differing, slow)
    && WaveStops(existing, differing, slow == Some(k), log, Published(waves[..k]), waves[k], n)
  }

  /** The release gets past every wave: no content differs, and the slow wave has nothing to index. */
  ghost predicate Unhindered(waves: seq<seq<Text>>, existing: set<Text>, differing: set<Text>, slow: Option<nat>)
  {
    forall k :: 0 <= k < |waves| ==>
      Elements(waves[k]) !! differing && (slow == Some(k) ==> Elements(waves[k]) <= existing)
  }

  /**
   Publish every wave; `slow` is a wave whose crates are not indexed in time. Whatever stops the
   release, everything done so far was in order; it succeeds exactly when nothing hinders it,
   and then every crate was packaged once, uploaded once iff the registry lacked it, and is visible.
   Otherwise it stops in the first wave that is hindered, with all earlier ones published.
   */
  method Publish(g: Graph, waves: seq<seq<Text>>, existing: set<Text>, differing: set<Text>, slow: Option<nat>)
    returns (ok: bool, log: seq<Action>)
    requires Closed(g) && WavesOk(g, waves)
    ensures InOrder(g, existing, log)
    ensures ok <==> Unhindered(waves, existing, differing, slow)
    ensures ok ==> Accounted(existing, log, Published(waves))
    ensures !ok ==> exists k, n :: StopsAt(waves, existing, differing, slow, log, k, n)
  {
    log := [];
    for k := 0 to |waves|
      invariant InOrder(g, existing, log) && Accounted(existing, log, Published(waves[..k]))
      invariant Unhindered(waves[..k], existing, differing, slow)
    {
      UnhinderedNext(waves, k, existing, differing, slow);
      var uploads;
      uploads, log := PublishWave(g, waves, k, existing, differing, slow == Some(k), log);
      if !uploads {
        ghost var n :| WaveStops(existing, differing, slow == Some(k), log, Published(waves[..k]), waves[k], n);
        assert StopsAt(waves, existing, differing, slow, log, k, n);
        return false, log;
      }
    }
    assert waves[..|waves|] == waves;
    return true, log;
  }

  lemma UnhinderedNext(waves: seq<seq<Text>>, k: nat, existing: set<Text>, differing: set<Text>, slow: Option<nat>)
    requires k < |waves| && Unhindered(waves[..k], existing, differing, slow)
    ensures Unhindered(waves[..k + 1], existing, differing, slow) <==>
            Elements(waves[k]) !! differing && (slow == Some(k) ==> Elements(waves[k]) <= existing)
    ensures Unhindered(waves, existing, differing, slow) ==> Unhindered(waves[..k + 1], existing, differing, slow)
  {
    assert waves[..k + 1] == waves[..k] + [waves[k]];
  }

  /** Package and upload one wave after all earlier ones. */
  method BuildWave(g: Graph, waves: seq<seq<Text>>, k: nat, existing: set<Text>, differing: set<Text>, log: seq<Action>)
    returns (ok: bool, log': seq<Action>, uploaded: set<Text>)
    requires Closed(g) && WavesOk(g, waves) && k < |waves|
    requires InOrder(g, existing, log) && Accounted(existing, log, Published(waves[..k]))
    ensures InOrder(g, existing, log') && Visible(existing, log') == Visible(existing, log)
    ensures ok <==> Elements(waves[k]) !! differing
    ensures ok ==> uploaded == Elements(waves[k]) - existing
    ensures ok ==> Counted(existing, log', Published(waves[..k]) + Elements(waves[k]))
    ensures !ok ==> exists n :: WaveStops(existing, differing, false, log', Published(waves[..k]), waves[k], n)
  {
    WaveIsBuildable(g, waves, k, Visible(existing, log));
    var packaged := PackageWave(g, existing, waves[k], log);
    AllPackaged(log, packaged, waves[k]);
    ok, log', uploaded := UploadWave(g, existing, differing, waves[k], packaged);
    if ok {
      WaveCounted(existing, log, packaged, log', waves[k], Published(waves[..k]));
    } else {
      ghost var n :| UploadsEndAt(packaged, log', existing, differing, waves[k], n);
      WaveStopped(existing, log, packaged, log', waves[k], n, Published(waves[..k]));
      assert WaveStops(existing, differing, false, log', Published(waves[..k]), waves[k], n);
    }
  }

  /** Wait until what was uploaded is indexed; nothing to wait for without uploads. */
  method IndexUploads(g: Graph, existing: set<Text>, uploaded: set<Text>, log: seq<Action>,
                      ghost done: set<Text>, ghost wave: set<Text>)
    returns (log': seq<Action>)
    requires InOrder(g, existing, log) && Counted(existing, log, done + wave)
    requires Visible(existing, log) == existing + done && uploaded == wave - existing
    ensures InOrder(g, existing, log') && Accounted(existing, log', done + wave)
  {
    log' := log;
    if uploaded != {} {
      Act(g, existing, log, Indexed(uploaded));
      IndexingCounts(existing, log, uploaded, done + wave);
      log' := log + [Indexed(uploaded)];
    }
    assert existing + done + (wave - existing) == existing + (done + wave);
  }

  lemma IndexingCounts(existing: set<Text>, log: seq<Action>, uploaded: set<Text>, done: set<Text>)
    requires Counted(existing, log, done)
    ensures Counted(existing, log + [Indexed(uploaded)], done)
  {
    forall a: Action | !a.Indexed? ensures Times(log + [Indexed(uploaded)], a) == Times(log, a) {
      TimesAppend(log, Indexed(uploaded), a);
    }
  }

  lemma NothingMissing(wave: set<Text>, existing: set<Text>)
    ensures wave - existing == {} <==> wave <= existing
  {
    if wave - existing == {} {
      assert forall c :: c in wave && c !in existing ==> c in wave - existing;
    }
  }

  /** One wave after all earlier ones. */
  method PublishWave(g: Graph, waves: seq<seq<Text>>, k: nat, existing: set<Text>, differing: set<Text>, late: bool,
                     log: seq<Action>)
    returns (ok: bool, log': seq<Action>)
    requires Closed(g) && WavesOk(g, waves) && k < |waves|
    requires InOrder(g, existing, log) && Accounted(existing, log, Published(waves[..k]))
    ensures InOrder(g, existing, log')
    ensures ok <==> Elements(waves[k]) !! differing && (late ==> Elements(waves[k]) <= existing)
    ensures ok ==> Accounted(existing, log', Published(waves[..k + 1]))
    ensures !ok ==> exists n :: WaveStops(existing, differing, late, log', Published(waves[..k]), waves[k], n)
  {
    var uploaded;
    ok, log', uploaded := BuildWave(g, waves, k, existing, differing, log);
    if !ok {
      LateOrNot(existing, differing, late, log', Published(waves[..k]), waves[k]);
      return false, log';
    }
    NothingMissing(Elements(waves[k]), existing);
    if uploaded != {} && late {
      WholeWaveStops(existing, differing, log', Published(waves[..k]), waves[k]);
      return false, log';
    }
    PublishedUpTo(waves, k);
    log' := IndexUploads(g, existing, uploaded, log', Published(waves[..k]), Elements(waves[k]));
  }

  lemma LateOrNot(existing: set<Text>, differing: set<Text>, late: bool, log: seq<Action>, done: set<Text>,
                  wave: seq<Text>)
    requires exists n :: WaveStops(existing, differing, false, log, done, wave, n)
    ensures exists n :: WaveStops(existing, differing, late, log, done, wave, n)
  {
    var n :| WaveStops(existing, differing, false, log, done, wave, n);
    assert WaveStops(existing, differing, late, log, done, wave, n);
  }

  lemma PublishedUpTo(waves: seq<seq<Text>>, k: nat)
    requires k < |waves|
    ensures Published(waves[..k + 1]) == Published(waves[..k]) + Elements(waves[k])
  {
    assert waves[..k + 1][..k] == waves[..k];
  }

  lemma AllPackaged(log: seq<Action>, packaged: seq<Action>, wave: seq<Text>)
    requires Packaged(log, packaged, wave, |wave|)
    ensures forall c :: c in wave ==> Times(packaged, Package(c)) > 0
  {
    assert wave[..|wave|] == wave;
  }

  /** The counts after a wave whose crates were not published before. */
  lemma WaveCounted(existing: set<Text>, log: seq<Action>, packaged: seq<Action>, after: seq<Action>,
                    wave: seq<Text>, done: set<Text>)
    requires Counted(existing, log, done) && Elements(wave) !! done
    requires Packaged(log, packaged, wave, |wave|) && Uploaded(packaged, after, existing, wave, |wave|)
    ensures Counted(existing, after, done + Elements(wave))
  {
    assert wave[..|wave|] == wave;
    assert forall c :: c in wave <==> c in Elements(wave);
  }

  /** The counts when the uploads of the wave end before crate `n`. */
  lemma WaveStopped(existing: set<Text>, log: seq<Action>, packaged: seq<Action>, after: seq<Action>,
                    wave: seq<Text>, n: nat, done: set<Text>)
    requires Accounted(existing, log, done) && Elements(wave) !! done && n <= |wave|
    requires Packaged(log, packaged, wave, |wave|) && Uploaded(packaged, after, existing, wave, n)
    requires Visible(existing, after) == Visible(existing, log)
    ensures Stopped(existing, after, done, wave, n)
  {
    assert wave[..|wave|] == wave;
    assert forall c :: c in wave <==> c in Elements(wave);
    assert forall c :: c in wave[..n] ==> c in wave;
  }

  lemma WholeWaveStops(existing: set<Text>, differing: set<Text>, log: seq<Action>, done: set<Text>, wave: seq<Text>)
    requires Counted(existing, log, done + Elements(wave)) && Visible(existing, log) == existing + done
    requires Elements(wave) !! differing
    ensures WaveStops(existing, differing, true, log, done, wave, |wave|)
  {
    assert wave[..|wave|] == wave;
    assert forall c :: c in wave <==> c in Elements(wave);
  }

  lemma WaveIsBuildable(g: Graph, waves: seq<seq<Text>>, k: nat, visible: set<Text>)
    requires Closed(g) && WavesOk(g, waves) && k < |waves| && Published(waves[..k]) <= visible
    ensures Sorted(waves[k]) && Buildable(g, waves[k], visible)
    ensures Elements(waves[k]) !! Published(waves[..k])
  {
    WaveAt(g, waves, k);
    PrefixOk(g, waves, k);
    PublishedIsShallow(g, waves[..k]);
    forall i | 0 <= i < |waves[k]| ensures waves[k][i] in g && g[waves[k][i]] <= visible {
      WavesAreEarliest(g, waves, k, waves[k][i], c => 0);
    }
  }
}
