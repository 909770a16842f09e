/**
 * The model registry: `load_models(models_dir)` scans a directory for metadata
 * documents and pairs each with the pickled estimator stored beside it.
 *
 * The file system is abstracted away. The scan is given as the sequence of
 * candidates in the order the directory walk yields the `*.json` files; each
 * candidate records what reading it produces: the parsed metadata (`None` when
 * the file cannot be read or parsed as a metadata object), the names of the
 * files in its folder, and the estimator unpickled from `<tag>.pkl` (`None`
 * when unpickling raises).
 */
module Registry {
  import opened Common
  import opened ModelMetadata

  /** One registry value: `{"metadata": ..., "model": ...}`. */
  datatype Entry<M> = Entry(metadata: Metadata, model: M)

  /** One `*.json` file found by the walk. */
  datatype Candidate<M> = Candidate(metadata: Option<Metadata>, siblings: set<string>, unpickled: Option<M>)

  /** The pickle file a metadata document refers to: `f"{tag}.pkl"` in the same folder. */
  function PickleName(tag: string): (r: string)
    ensures |r| == |tag| + 4 && r[..|tag|] == tag
  {
    tag + ".pkl"
  }

  /**
   * What one candidate contributes: its key and entry, or nothing when it is
   * skipped. Whatever is admitted is keyed by the entry's own tag, and its
   * pickle was found beside it.
   */
  function Admit<M>(c: Candidate<M>): (r: Option<(string, Entry<M>)>)
    ensures r.Some? ==> Tag(r.value.1.metadata) == Some(r.value.0)
    ensures r.Some? ==> PickleName(r.value.0) in c.siblings
    ensures r.Some? ==> c.metadata == Some(r.value.1.metadata) && c.unpickled == Some(r.value.1.model)
  {
    if c.metadata.None? then None
    else
      var tag := Tag(c.metadata.value);
      if tag.None? then None
      else if PickleName(tag.value) !in c.siblings then None
      else if c.unpickled.None? then None
      else Some((tag.value, Entry(c.metadata.value, c.unpickled.value)))
  }

  /** Each of the three ways a readable candidate is skipped, and admission otherwise. */
  lemma AdmitCases<M>(c: Candidate<M>)
    ensures c.metadata.None? ==> Admit(c).None?
    ensures c.metadata.Some? && Tag(c.metadata.value).None? ==> Admit(c).None?
    ensures (c.metadata.Some? && Tag(c.metadata.value).Some?
      && PickleName(Tag(c.metadata.value).value) !in c.siblings) ==> Admit(c).None?
    ensures c.unpickled.None? ==> Admit(c).None?
    ensures (c.metadata.Some? && Tag(c.metadata.value).Some?
      && PickleName(Tag(c.metadata.value).value) in c.siblings && c.unpickled.Some?)
      ==> Admit(c) == Some((Tag(c.metadata.value).value, Entry(c.metadata.value, c.unpickled.value)))
  {
  }

  ghost predicate AdmittedAs<M>(c: Candidate<M>, k: string) {
    Admit(c).Some? && Admit(c).value.0 == k
  }

  /** Every key of the registry is the tag its own metadata declares. */
  ghost predicate WellKeyed<M>(reg: map<string, Entry<M>>) {
    forall k :: k in reg ==> Tag(reg[k].metadata) == Some(k)
  }

  /** `results[str(tag)] = {...}` for an admitted candidate; nothing otherwise. */
  function Step<M>(acc: map<string, Entry<M>>, c: Candidate<M>): (r: map<string, Entry<M>>)
    ensures WellKeyed(acc) ==> WellKeyed(r)
  {
    match Admit(c)
    case None => acc
    case Some((k, e)) => acc[k := e]
  }

  /** The loop over the walk, in walk order. */
  function Scan<M>(acc: map<string, Entry<M>>, cs: seq<Candidate<M>>): (r: map<string, Entry<M>>)
    ensures WellKeyed(acc) ==> WellKeyed(r)
    ensures acc.Keys <= r.Keys
    decreases |cs|
  {
    if |cs| == 0 then acc else Scan(Step(acc, cs[0]), cs[1..])
  }

  /**
   * `load_models`: the registry loaded from a directory. A directory that does
   * not exist gives the empty registry; otherwise every key is the tag of the
   * metadata stored under it.
   */
  function LoadModels<M>(dirExists: bool, cs: seq<Candidate<M>>): (r: map<string, Entry<M>>)
    ensures !dirExists ==> r == map[]
    ensures WellKeyed(r)
  {
    if !dirExists then map[] else Scan(map[], cs)
  }

  /** Scanning a concatenation scans the first part and continues from its result. */
  lemma {:induction false} ScanConcat<M>(acc: map<string, Entry<M>>, a: seq<Candidate<M>>, b: seq<Candidate<M>>)
    ensures Scan(acc, a + b) == Scan(Scan(acc, a), b)
    decreases |a|
  {
    if |a| == 0 {
      assert a + b == b;
    } else {
      assert (a + b)[1..] == a[1..] + b;
      ScanConcat(Step(acc, a[0]), a[1..], b);
    }
  }

  /**
   * A candidate that is skipped, whatever the reason, leaves the registry
   * exactly as if its file were not there: one bad file never hides another.
   */
  lemma SkippedCandidateIsInvisible<M>(a: seq<Candidate<M>>, c: Candidate<M>, b: seq<Candidate<M>>)
    requires Admit(c).None?
    ensures LoadModels(true, a + [c] + b) == LoadModels(true, a + b)
  {
    ScanConcat(map[], a + [c], b);
    ScanConcat(map[], a, [c]);
    ScanConcat(map[], a, b);
    assert Scan(Scan(map[], a), [c]) == Scan(map[], a);
  }

  /** The entry of the last candidate admitted under key `k`, if any. */
  function LastAdmitted<M>(cs: seq<Candidate<M>>, k: string): (r: Option<Entry<M>>)
    decreases |cs|
  {
    if |cs| == 0 then None
    else if Admit(cs[|cs| - 1]).Some? && Admit(cs[|cs| - 1]).value.0 == k then Some(Admit(cs[|cs| - 1]).value.1)
    else LastAdmitted(cs[..|cs| - 1], k)
  }

  lemma {:induction false} LastAdmittedIsLast<M>(cs: seq<Candidate<M>>, k: string)
    ensures LastAdmitted(cs, k).Some? <==> exists i :: 0 <= i < |cs| && AdmittedAs(cs[i], k)
    ensures LastAdmitted(cs, k).Some? ==> exists i :: (0 <= i < |cs| && AdmittedAs(cs[i], k)
      && LastAdmitted(cs, k).value == Admit(cs[i]).value.1
      && forall j :: i < j < |cs| ==> !AdmittedAs(cs[j], k))
    decreases |cs|
  {
    if |cs| > 0 {
      var n := |cs| - 1;
      if !AdmittedAs(cs[n], k) {
        var front := cs[..n];
        LastAdmittedIsLast(front, k);
        assert forall i :: 0 <= i < n ==> cs[i] == front[i];
        if LastAdmitted(cs, k).Some? {
          var i :| 0 <= i < |front| && AdmittedAs(front[i], k)
            && LastAdmitted(front, k).value == Admit(front[i]).value.1
            && forall j :: i < j < |front| ==> !AdmittedAs(front[j], k);
          assert forall j :: i < j < |cs| ==> !AdmittedAs(cs[j], k);
        }
      }
    }
  }

  /** One key of a scan's result: the last candidate admitted under it, else the starting map. */
  lemma {:induction false} ScanLookup<M>(acc: map<string, Entry<M>>, cs: seq<Candidate<M>>, k: string)
    ensures k in Scan(acc, cs) <==> LastAdmitted(cs, k).Some? || k in acc
    ensures k in Scan(acc, cs) ==>
      Scan(acc, cs)[k] == (if LastAdmitted(cs, k).Some? then LastAdmitted(cs, k).value else acc[k])
    decreases |cs|
  {
    if |cs| > 0 {
      var n := |cs| - 1;
      assert cs == cs[..n] + [cs[n]];
      ScanConcat(acc, cs[..n], [cs[n]]);
      ScanLookup(acc, cs[..n], k);
    }
  }

  /**
   * The registry holds key `k` exactly when some candidate is admitted under
   * `k`, and then its entry is that of the last such candidate in walk order:
   * on duplicate tags the last writer wins.
   */
  lemma LastWriterWins<M>(cs: seq<Candidate<M>>, k: string)
    ensures k in LoadModels(true, cs) <==> exists i :: 0 <= i < |cs| && AdmittedAs(cs[i], k)
    ensures k in LoadModels(true, cs) ==> exists i :: (0 <= i < |cs| && AdmittedAs(cs[i], k)
      && LoadModels(true, cs)[k] == Admit(cs[i]).value.1
      && forall j :: i < j < |cs| ==> !AdmittedAs(cs[j], k))
  {
    ScanLookup(map[], cs, k);
    LastAdmittedIsLast(cs, k);
  }
}
