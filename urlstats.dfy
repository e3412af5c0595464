/**
 * The per-URL summary that the `/api/urls` handlers (index.js, server/api.js)
 * and the viewer's URL summary (scripts/json-viewer.js) compute over the
 * store: a nested walk over every execution and every URL of it that counts
 * appearances and sums the integer metrics into a dictionary keyed by URL.
 *
 * The walk is the method `CollectUrlStats`; it is proved to build
 * `AggregateOf(StoreVisits(st, st.ids))`, and that value is related to an
 * independent, per-execution reference tally `ExecTally`.
 */
module UrlStats {
  import opened Seqs
  import opened Consolidator

  /** One URL of one execution, as the walk meets it. */
  datatype Visit = Visit(id: string, fecha: string, url: string, entry: UrlEntry)

  /** An element of a URL's `ejecuciones` list. */
  datatype UrlExecution = UrlExecution(id: string, fecha: string, vistas: int, sesiones: int, usuarios: int)

  /** The integer part of `urlStats[url]`. */
  datatype UrlStat = UrlStat(
    apariciones: nat,
    totalVistas: int,
    totalSesiones: int,
    totalUsuarios: int,
    datosExitosos: nat,
    ejecuciones: seq<UrlExecution>)

  const NoStat := UrlStat(0, 0, 0, 0, 0, [])

  /** The dictionary the walk builds, with its key order. */
  datatype Aggregate = Aggregate(stats: map<string, UrlStat>, order: seq<string>)

  // ----- what the walk visits -----

  /** The URLs of one execution, in the object's key order. */
  function ExecVisits(id: string, e: Execution, order: seq<string>): (r: seq<Visit>)
    requires forall u :: u in order ==> u in e.urls
    ensures |r| == |order|
    ensures forall k :: 0 <= k < |order| ==> r[k] == Visit(id, e.metadata.fechaEjecucion, order[k], e.urls[order[k]])
  {
    seq(|order|, k requires 0 <= k < |order| => Visit(id, e.metadata.fechaEjecucion, order[k], e.urls[order[k]]))
  }

  lemma ExecVisitsSnoc(id: string, e: Execution, order: seq<string>, j: nat)
    requires j < |order| && forall u :: u in order ==> u in e.urls
    ensures ExecVisits(id, e, order[..j + 1]) == ExecVisits(id, e, order[..j]) + [Visit(id, e.metadata.fechaEjecucion, order[j], e.urls[order[j]])]
  {
  }

  /** Every listed execution exists and its key list matches its URLs. */
  ghost predicate Walkable(st: StoreValue, ids: seq<string>)
  {
    forall id :: id in ids ==> id in st.data && ExecKeysAgree(st.data[id])
  }

  /** Every URL of every execution listed in `ids`, executions in order. */
  function StoreVisits(st: StoreValue, ids: seq<string>): seq<Visit>
    requires Walkable(st, ids)
  {
    if ids == [] then []
    else
      var id := ids[|ids| - 1];
      StoreVisits(st, ids[..|ids| - 1]) + ExecVisits(id, st.data[id], st.data[id].urlOrder)
  }

  function UrlsOfVisits(vs: seq<Visit>): (r: seq<string>)
    ensures |r| == |vs| && forall k :: 0 <= k < |vs| ==> r[k] == vs[k].url
  {
    seq(|vs|, k requires 0 <= k < |vs| => vs[k].url)
  }

  // ----- the reference tallies -----

  /** The stat of one appearance. */
  function One(v: Visit): UrlStat
  {
    UrlStat(1, v.entry.metrics.vistas, v.entry.metrics.sesiones, v.entry.metrics.usuariosActivos,
            if v.entry.datosEncontrados then 1 else 0,
            [UrlExecution(v.id, v.fecha, v.entry.metrics.vistas, v.entry.metrics.sesiones, v.entry.metrics.usuariosActivos)])
  }

  /** Two stats added field by field; the execution lists are concatenated. */
  function Plus(a: UrlStat, b: UrlStat): UrlStat
  {
    UrlStat(a.apariciones + b.apariciones, a.totalVistas + b.totalVistas, a.totalSesiones + b.totalSesiones,
            a.totalUsuarios + b.totalUsuarios, a.datosExitosos + b.datosExitosos, a.ejecuciones + b.ejecuciones)
  }

  /** The stat of URL `u` over a sequence of visits. */
  function Tally(vs: seq<Visit>, u: string): UrlStat
  {
    if vs == [] then NoStat
    else
      var t := Tally(vs[..|vs| - 1], u);
      if vs[|vs| - 1].url == u then Plus(t, One(vs[|vs| - 1])) else t
  }

  /**
   * The reference: the stat of `u` over the executions listed in `ids` whose
   * URLs contain `u`, each counted once with its entry for `u`.
   */
  function ExecTally(st: StoreValue, ids: seq<string>, u: string): (r: UrlStat)
    requires forall id :: id in ids ==> id in st.data
    ensures r.apariciones == |r.ejecuciones| <= |ids|
    ensures r.datosExitosos <= r.apariciones
  {
    if ids == [] then NoStat
    else
      var id := ids[|ids| - 1];
      var e := st.data[id];
      var t := ExecTally(st, ids[..|ids| - 1], u);
      if u in e.urls then Plus(t, One(Visit(id, e.metadata.fechaEjecucion, u, e.urls[u]))) else t
  }

  // ----- what the walk builds -----

  /** One turn of the inner loop: create the URL's stat when missing, then count the appearance. */
  function Step(a: Aggregate, v: Visit): Aggregate
  {
    var s := if v.url in a.stats then a.stats[v.url] else NoStat;
    Aggregate(a.stats[v.url := Plus(s, One(v))], if v.url in a.stats then a.order else a.order + [v.url])
  }

  function AggregateOf(vs: seq<Visit>): Aggregate
  {
    if vs == [] then Aggregate(map[], []) else Step(AggregateOf(vs[..|vs| - 1]), vs[|vs| - 1])
  }

  // ----- properties -----

  lemma PlusAssoc(a: UrlStat, b: UrlStat, c: UrlStat)
    ensures Plus(Plus(a, b), c) == Plus(a, Plus(b, c))
  {
  }

  lemma PlusNoStat(a: UrlStat)
    ensures Plus(NoStat, a) == a && Plus(a, NoStat) == a
  {
  }

  /**
   * The dictionary has one key per distinct visited URL, in order of first
   * appearance, and the stat under each key is that URL's tally.
   */
  lemma {:induction false} AggregateCorrect(vs: seq<Visit>)
    ensures AggregateOf(vs).order == Distinct(UrlsOfVisits(vs))
    ensures forall u :: u in AggregateOf(vs).stats <==> u in UrlsOfVisits(vs)
    ensures forall u :: u in AggregateOf(vs).stats ==> AggregateOf(vs).stats[u] == Tally(vs, u)
  {
    AggregateShape(vs);
    AggregateTallies(vs);
  }

  /** The keys of the dictionary and their order. */
  lemma {:induction false} AggregateShape(vs: seq<Visit>)
    ensures AggregateOf(vs).order == Distinct(UrlsOfVisits(vs))
    ensures forall u :: u in AggregateOf(vs).stats <==> u in UrlsOfVisits(vs)
  {
    if vs != [] {
      var init, v := vs[..|vs| - 1], vs[|vs| - 1];
      AggregateShape(init);
      var a := AggregateOf(init);
      assert AggregateOf(vs) == Step(a, v);
      assert UrlsOfVisits(vs) == UrlsOfVisits(init) + [v.url];
      AddAllSnoc([], UrlsOfVisits(init), v.url);
      assert Distinct(UrlsOfVisits(vs)) == Add(a.order, v.url);
    }
  }

  /** The stat under each key. */
  lemma {:induction false} AggregateTallies(vs: seq<Visit>)
    ensures forall u :: u in AggregateOf(vs).stats ==> AggregateOf(vs).stats[u] == Tally(vs, u)
  {
    if vs != [] {
      var init, v := vs[..|vs| - 1], vs[|vs| - 1];
      AggregateTallies(init);
      var a := AggregateOf(init);
      assert AggregateOf(vs) == Step(a, v);
      if v.url !in a.stats {
        AggregateShape(init);
        TallyAbsent(init, v.url);
        PlusNoStat(One(v));
      }
      forall u | u in AggregateOf(vs).stats
        ensures AggregateOf(vs).stats[u] == Tally(vs, u)
      {
        assert Tally(vs, u) == if v.url == u then Plus(Tally(init, u), One(v)) else Tally(init, u);
      }
    }
  }

  lemma {:induction false} TallyAbsent(vs: seq<Visit>, u: string)
    requires u !in UrlsOfVisits(vs)
    ensures Tally(vs, u) == NoStat
  {
    if vs != [] {
      assert UrlsOfVisits(vs[..|vs| - 1]) == UrlsOfVisits(vs)[..|vs| - 1];
      TallyAbsent(vs[..|vs| - 1], u);
    }
  }

  lemma {:induction false} TallyConcat(a: seq<Visit>, b: seq<Visit>, u: string)
    ensures Tally(a + b, u) == Plus(Tally(a, u), Tally(b, u))
  {
    if b == [] {
      assert a + b == a;
      PlusNoStat(Tally(a, u));
    } else {
      var init, v := b[..|b| - 1], b[|b| - 1];
      assert (a + b)[..|a + b| - 1] == a + init;
      TallyConcat(a, init, u);
      if v.url == u {
        PlusAssoc(Tally(a, u), Tally(init, u), One(v));
      }
    }
  }

  /** A URL listed once in an execution is tallied once for it; one not listed is not tallied. */
  lemma {:induction false} TallyExecVisits(id: string, e: Execution, order: seq<string>, u: string)
    requires NoDup(order) && forall x :: x in order ==> x in e.urls
    ensures Tally(ExecVisits(id, e, order), u)
            == if u in order then One(Visit(id, e.metadata.fechaEjecucion, u, e.urls[u])) else NoStat
  {
    if order != [] {
      var init, x := order[..|order| - 1], order[|order| - 1];
      assert forall i, j :: 0 <= i < j < |init| ==> init[i] == order[i] && init[j] == order[j];
      ExecVisitsSnoc(id, e, order, |order| - 1);
      assert order[..|order|] == order;
      TallyExecVisits(id, e, init, u);
      assert order == init + [x];
      if x == u {
        PlusNoStat(One(Visit(id, e.metadata.fechaEjecucion, u, e.urls[u])));
      }
    }
  }

  /** The walk's tally of a URL is the per-execution reference tally. */
  lemma {:induction false} TallyIsExecTally(st: StoreValue, ids: seq<string>, u: string)
    requires Walkable(st, ids)
    ensures Tally(StoreVisits(st, ids), u) == ExecTally(st, ids, u)
  {
    if ids != [] {
      var init, id := ids[..|ids| - 1], ids[|ids| - 1];
      var e := st.data[id];
      assert Walkable(st, init) by { assert forall x :: x in init ==> x in ids; }
      TallyIsExecTally(st, init, u);
      TallyConcat(StoreVisits(st, init), ExecVisits(id, e, e.urlOrder), u);
      TallyExecVisits(id, e, e.urlOrder, u);
      if u !in e.urls {
        PlusNoStat(ExecTally(st, init, u));
      }
    }
  }

  /** The URLs visited are exactly the URLs of the listed executions. */
  lemma {:induction false} VisitedUrls(st: StoreValue, ids: seq<string>, u: string)
    requires Walkable(st, ids)
    ensures u in UrlsOfVisits(StoreVisits(st, ids)) <==> exists id :: id in ids && u in st.data[id].urls
  {
    if ids != [] {
      var init, id := ids[..|ids| - 1], ids[|ids| - 1];
      var e := st.data[id];
      assert Walkable(st, init) by { assert forall x :: x in init ==> x in ids; }
      VisitedUrls(st, init, u);
      var a, b := StoreVisits(st, init), ExecVisits(id, e, e.urlOrder);
      assert StoreVisits(st, ids) == a + b;
      UrlsOfVisitsConcat(a, b);
      ExecVisitsUrls(id, e, e.urlOrder, u);
      assert (exists x :: x in ids && u in st.data[x].urls)
        <==> (exists x :: x in init && u in st.data[x].urls) || u in e.urls by {
        assert ids == init + [id];
      }
    }
  }

  lemma UrlsOfVisitsConcat(a: seq<Visit>, b: seq<Visit>)
    ensures UrlsOfVisits(a + b) == UrlsOfVisits(a) + UrlsOfVisits(b)
  {
  }

  /** An execution's visits go to exactly the URLs of its key list. */
  lemma ExecVisitsUrls(id: string, e: Execution, order: seq<string>, u: string)
    requires forall x :: x in order ==> x in e.urls
    ensures u in UrlsOfVisits(ExecVisits(id, e, order)) <==> u in order
  {
    var b := ExecVisits(id, e, order);
    if u in order {
      var k :| 0 <= k < |order| && order[k] == u;
      assert UrlsOfVisits(b)[k] == u;
    }
  }

  /**
   * What `urlStats` holds after the walk: one key per distinct URL of the
   * executions, and under it the per-execution reference tally.
   */
  lemma StoreAggregate(st: StoreValue)
    requires KeysAgree(st)
    ensures var a := AggregateOf(StoreVisits(st, st.ids));
            NoDup(a.order)
            && (forall u :: u in a.stats <==> u in a.order)
            && (forall u :: u in a.stats <==> exists id :: id in st.ids && u in st.data[id].urls)
            && (forall u :: u in a.stats ==> a.stats[u] == ExecTally(st, st.ids, u) && a.stats[u].apariciones > 0)
  {
    var vs := StoreVisits(st, st.ids);
    AggregateCorrect(vs);
    var a := AggregateOf(vs);
    forall u | u in a.stats
      ensures a.stats[u] == ExecTally(st, st.ids, u) && a.stats[u].apariciones > 0
    {
      TallyIsExecTally(st, st.ids, u);
      TallyPositive(vs, u);
    }
    forall u ensures u in a.stats <==> exists id :: id in st.ids && u in st.data[id].urls {
      VisitedUrls(st, st.ids, u);
    }
  }

  lemma {:induction false} TallyPositive(vs: seq<Visit>, u: string)
    requires u in UrlsOfVisits(vs)
    ensures Tally(vs, u).apariciones > 0
  {
    var init := vs[..|vs| - 1];
    if vs[|vs| - 1].url != u {
      assert UrlsOfVisits(init) == UrlsOfVisits(vs)[..|vs| - 1];
      TallyPositive(init, u);
    }
  }

  // ----- the walk -----

  lemma StepOf(a: Aggregate, v: Visit, stats: map<string, UrlStat>, order: seq<string>)
    requires stats == a.stats[v.url := Plus(if v.url in a.stats then a.stats[v.url] else NoStat, One(v))]
    requires order == if v.url in a.stats then a.order else a.order + [v.url]
    ensures Aggregate(stats, order) == Step(a, v)
  {
  }

  /** One more URL of the current execution walked. */
  lemma WalkSnoc(before: seq<Visit>, id: string, e: Execution, j: nat)
    requires j < |e.urlOrder| && forall u :: u in e.urlOrder ==> u in e.urls
    ensures AggregateOf(before + ExecVisits(id, e, e.urlOrder[..j + 1]))
         == Step(AggregateOf(before + ExecVisits(id, e, e.urlOrder[..j])),
                 Visit(id, e.metadata.fechaEjecucion, e.urlOrder[j], e.urls[e.urlOrder[j]]))
  {
    var vs := before + ExecVisits(id, e, e.urlOrder[..j]);
    var v := Visit(id, e.metadata.fechaEjecucion, e.urlOrder[j], e.urls[e.urlOrder[j]]);
    ExecVisitsSnoc(id, e, e.urlOrder, j);
    assert before + ExecVisits(id, e, e.urlOrder[..j + 1]) == vs + [v];
    assert (vs + [v])[..|vs|] == vs;
  }

  /** The nested walk of the `/api/urls` handler, filling `urlStats` in place. */
  method CollectUrlStats(st: StoreValue) returns (stats: map<string, UrlStat>, order: seq<string>)
    requires KeysAgree(st)
    ensures Aggregate(stats, order) == AggregateOf(StoreVisits(st, st.ids))
  {
    stats, order := map[], [];
    var i := 0;
    while i < |st.ids|
      invariant 0 <= i <= |st.ids|
      invariant Walkable(st, st.ids[..i])
      invariant Aggregate(stats, order) == AggregateOf(StoreVisits(st, st.ids[..i]))
    {
      var id := st.ids[i];
      stats, order := CountExecution(stats, order, id, st.data[id], StoreVisits(st, st.ids[..i]));
      assert st.ids[..i + 1][..i] == st.ids[..i];
      i := i + 1;
      assert Walkable(st, st.ids[..i]) by { assert forall x :: x in st.ids[..i] ==> x in st.ids; }
    }
    assert st.ids[..i] == st.ids;
  }

  /** The inner loop: every URL of one execution counted into `urlStats`. */
  method CountExecution(stats0: map<string, UrlStat>, order0: seq<string>, id: string, ejecucion: Execution, ghost before: seq<Visit>)
    returns (stats: map<string, UrlStat>, order: seq<string>)
    requires Aggregate(stats0, order0) == AggregateOf(before)
    requires forall u :: u in ejecucion.urlOrder ==> u in ejecucion.urls
    ensures Aggregate(stats, order) == AggregateOf(before + ExecVisits(id, ejecucion, ejecucion.urlOrder))
  {
    stats, order := stats0, order0;
    var j := 0;
    assert before + ExecVisits(id, ejecucion, ejecucion.urlOrder[..0]) == before;
    while j < |ejecucion.urlOrder|
      invariant 0 <= j <= |ejecucion.urlOrder|
      invariant Aggregate(stats, order) == AggregateOf(before + ExecVisits(id, ejecucion, ejecucion.urlOrder[..j]))
    {
      var url := ejecucion.urlOrder[j];
      stats, order := CountUrl(stats, order, id, ejecucion.metadata.fechaEjecucion, url, ejecucion.urls[url]);
      WalkSnoc(before, id, ejecucion, j);
      j := j + 1;
    }
    assert ejecucion.urlOrder[..j] == ejecucion.urlOrder;
  }

  /** One turn of the inner loop: create `urlStats[url]` when missing, then count the appearance. */
  method CountUrl(stats0: map<string, UrlStat>, order0: seq<string>, id: string, fecha: string, url: string, urlData: UrlEntry)
    returns (stats: map<string, UrlStat>, order: seq<string>)
    ensures Aggregate(stats, order) == Step(Aggregate(stats0, order0), Visit(id, fecha, url, urlData))
  {
    stats, order := stats0, order0;
    ghost var v := Visit(id, fecha, url, urlData);
    if url !in stats {
      stats := stats[url := NoStat];
      order := order + [url];
    }
    var s := stats[url];
    assert s == if url in stats0 then stats0[url] else NoStat;
    var counted := UrlStat(
      s.apariciones + 1,
      s.totalVistas + urlData.metrics.vistas,
      s.totalSesiones + urlData.metrics.sesiones,
      s.totalUsuarios + urlData.metrics.usuariosActivos,
      s.datosExitosos + (if urlData.datosEncontrados then 1 else 0),
      s.ejecuciones + [UrlExecution(id, fecha, urlData.metrics.vistas, urlData.metrics.sesiones, urlData.metrics.usuariosActivos)]);
    assert counted == Plus(s, One(v));
    stats := stats[url := counted];
    StepOf(Aggregate(stats0, order0), v, stats, order);
  }
}
