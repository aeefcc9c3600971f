/**
 * The progress model: hunting points, rank, progress towards the next rank
 * and the rank title, all derived from the current mission list.
 */
module Progress {
  import opened Quests

  /** `t.stars || 1`: a falsy star count counts as one star. */
  function StarValue(q: Quest): (v: nat)
    ensures v >= 1
    ensures q.stars != 0 ==> v == q.stars
  {
    if q.stars == 0 then 1 else q.stars
  }

  /** What one mission adds to the total as the source's loop visits it. */
  function Worth(q: Quest): nat {
    if q.completed then StarValue(q) * 10 else 0
  }

  /** The total after the loop has visited every mission of `ts`, in order. */
  function Points(ts: seq<Task>): nat {
    if ts == [] then 0 else Points(ts[..|ts| - 1]) + Worth(ts[|ts| - 1].doc)
  }

  // A reference definition of the same total: ten points per star of each
  // completed mission.

  function CompletedOnly(ts: seq<Task>): (r: seq<Task>)
    ensures forall t :: t in r <==> t in ts && t.doc.completed
  {
    if ts == [] then []
    else if ts[0].doc.completed then [ts[0]] + CompletedOnly(ts[1..])
    else CompletedOnly(ts[1..])
  }

  function SumStars(ts: seq<Task>): nat {
    if ts == [] then 0 else StarValue(ts[0].doc) + SumStars(ts[1..])
  }

  lemma {:induction false} SumStarsAppend(a: seq<Task>, b: seq<Task>)
    ensures SumStars(a + b) == SumStars(a) + SumStars(b)
    decreases |a|
  {
    if a != [] {
      assert (a + b)[1..] == a[1..] + b;
      SumStarsAppend(a[1..], b);
    } else {
      assert a + b == b;
    }
  }

  lemma {:induction false} CompletedOnlyAppend(a: seq<Task>, t: Task)
    ensures CompletedOnly(a + [t]) == CompletedOnly(a) + (if t.doc.completed then [t] else [])
    decreases |a|
  {
    if a == [] {
      assert [t][1..] == [];
    } else {
      assert (a + [t])[1..] == a[1..] + [t];
      CompletedOnlyAppend(a[1..], t);
    }
  }

  /** The points are ten times the stars of the completed missions; open missions give nothing. */
  lemma {:induction false} PointsAreTenPerCompletedStar(ts: seq<Task>)
    ensures Points(ts) == 10 * SumStars(CompletedOnly(ts))
    decreases |ts|
  {
    if ts != [] {
      var init, last := ts[..|ts| - 1], ts[|ts| - 1];
      assert ts == init + [last];
      PointsAreTenPerCompletedStar(init);
      CompletedOnlyAppend(init, last);
      SumStarsAppend(CompletedOnly(init), if last.doc.completed then [last] else []);
      if last.doc.completed {
        assert SumStars([last]) == StarValue(last.doc);
      }
    }
  }

  // ---------------------------------------------------------------------------
  // Rank titles.

  /** The ranks at which a new title starts. */
  const TitleThresholds: seq<int> := [2, 5, 10, 20, 50]

  const Titles: seq<string> := [
    "Novato",
    "Cazador de Rango Bajo",
    "Cazador de Rango Alto",
    "Cazador Clase G",
    "Maestro Cazador",
    "Estrella Zafiro"
  ]

  /** How many of the thresholds from index `from` on a rank has reached. */
  function ThresholdsReached(rank: int, from: nat): (k: nat)
    requires from <= |TitleThresholds|
    ensures from + k <= |TitleThresholds|
    ensures forall i :: from <= i < from + k ==> TitleThresholds[i] <= rank
    ensures from + k < |TitleThresholds| ==> rank < TitleThresholds[from + k]
    decreases |TitleThresholds| - from
  {
    if from == |TitleThresholds| || rank < TitleThresholds[from] then 0
    else 1 + ThresholdsReached(rank, from + 1)
  }

  /** The title tier of a rank: the number of thresholds it has reached. */
  function Tier(rank: int): (k: nat)
    ensures k < |Titles|
    ensures forall i :: 0 <= i < k ==> TitleThresholds[i] <= rank
    ensures k < |TitleThresholds| ==> rank < TitleThresholds[k]
  {
    ThresholdsReached(rank, 0)
  }

  /** `getRankTitle`. */
  function RankTitle(rank: int): (title: string)
    ensures title == Titles[Tier(rank)]
  {
    if rank < 2 then "Novato"
    else if rank < 5 then "Cazador de Rango Bajo"
    else if rank < 10 then "Cazador de Rango Alto"
    else if rank < 20 then "Cazador Clase G"
    else if rank < 50 then "Maestro Cazador"
    else "Estrella Zafiro"
  }

  /** A higher rank never has a lower title. */
  lemma TierMonotone(r1: int, r2: int)
    requires r1 <= r2
    ensures Tier(r1) <= Tier(r2)
  {
  }

  // ---------------------------------------------------------------------------
  // The stats the header shows.

  datatype Stats = Stats(rank: int, progress: int, totalPoints: int, title: string)

  /**
   * `stats`: the loop sums the worth of each mission; then every 100 points
   * make a rank and the remainder is the progress bar's percentage.
   */
  method ComputeStats(tasks: seq<Task>) returns (s: Stats)
    ensures s.totalPoints == Points(tasks)
    ensures s.rank >= 1 && 0 <= s.progress < 100
    ensures s.totalPoints == (s.rank - 1) * 100 + s.progress
    ensures s.title == Titles[Tier(s.rank)]
  {
    var pts := 0;
    var i := 0;
    while i < |tasks|
      invariant 0 <= i <= |tasks|
      invariant pts == Points(tasks[..i])
    {
      var t := tasks[i];
      if t.doc.completed {
        pts := pts + StarValue(t.doc) * 10;
      }
      assert tasks[..i + 1][..i] == tasks[..i];
      i := i + 1;
    }
    assert tasks[..i] == tasks;
    var rank := pts / 100 + 1;
    s := Stats(rank, pts % 100, pts, RankTitle(rank));
  }
}
