/** The two orderings the system presents: inspection logs newest first (the
    client's timeline and the by-asset query) and assets by name (the asset
    listing). Both are stated as "sorted, and a permutation of the input". */
module Ordering {
  import opened Domain

  // ---------------------------------------------------------------- by date

  /** Inspection dates never increase along `logs`. */
  predicate NewestFirst(logs: seq<InspectionLog>) {
    forall i, j :: 0 <= i < j < |logs| ==> logs[i].inspectionDate >= logs[j].inspectionDate
  }

  /** Inserts `log` into a newest-first list, ahead of every log with the same
      date, so that earlier elements of the input stay earlier. */
  function InsertByDate(log: InspectionLog, logs: seq<InspectionLog>): (r: seq<InspectionLog>)
    ensures |r| == |logs| + 1
    ensures r[0] == log || (logs != [] && r[0] == logs[0])
  {
    if logs == [] || log.inspectionDate >= logs[0].inspectionDate then [log] + logs
    else [logs[0]] + InsertByDate(log, logs[1..])
  }

  /** Insertion adds exactly the one log. */
  lemma {:induction false} InsertByDatePermutes(log: InspectionLog, logs: seq<InspectionLog>)
    ensures multiset(InsertByDate(log, logs)) == multiset(logs) + multiset{log}
  {
    if logs != [] && log.inspectionDate < logs[0].inspectionDate {
      InsertByDatePermutes(log, logs[1..]);
      assert logs == [logs[0]] + logs[1..];
    }
  }

  /** Insertion into a newest-first list keeps it newest first. */
  lemma {:induction false} InsertByDateSorted(log: InspectionLog, logs: seq<InspectionLog>)
    requires NewestFirst(logs)
    ensures NewestFirst(InsertByDate(log, logs))
  {
    if logs != [] && log.inspectionDate < logs[0].inspectionDate {
      var rest := InsertByDate(log, logs[1..]);
      InsertByDateSorted(log, logs[1..]);
      assert logs[0].inspectionDate >= rest[0].inspectionDate;
    }
  }

  /** A copy of `logs` sorted by inspection date, newest first. */
  function SortByDateDesc(logs: seq<InspectionLog>): (r: seq<InspectionLog>)
    ensures NewestFirst(r)
    ensures multiset(r) == multiset(logs)
    ensures |r| == |logs|
  {
    if logs == [] then []
    else
      var rest := SortByDateDesc(logs[1..]);
      SortByDateStep(logs, rest);
      InsertByDate(logs[0], rest)
  }

  /** Inserting the head into the sorted tail sorts the whole list. */
  lemma SortByDateStep(logs: seq<InspectionLog>, rest: seq<InspectionLog>)
    requires logs != [] && NewestFirst(rest) && multiset(rest) == multiset(logs[1..])
    ensures NewestFirst(InsertByDate(logs[0], rest))
    ensures multiset(InsertByDate(logs[0], rest)) == multiset(logs)
  {
    InsertByDateSorted(logs[0], rest);
    InsertByDatePermutes(logs[0], rest);
    assert logs == [logs[0]] + logs[1..];
  }

  // ---------------------------------------------------------------- by name

  /** An ordinal lexicographic order on names. */
  predicate NameLe(a: string, b: string)
    decreases |a|
  {
    a == [] || (b != [] && (a[0] < b[0] || (a[0] == b[0] && NameLe(a[1..], b[1..]))))
  }

  lemma {:induction false} NameLeTotal(a: string, b: string)
    ensures NameLe(a, b) || NameLe(b, a)
    decreases |a|
  {
    if a != [] && b != [] && a[0] == b[0] {
      NameLeTotal(a[1..], b[1..]);
    }
  }

  lemma {:induction false} NameLeTransitive(a: string, b: string, c: string)
    requires NameLe(a, b) && NameLe(b, c)
    ensures NameLe(a, c)
    decreases |a|
  {
    if a != [] && a[0] == b[0] && b[0] == c[0] {
      NameLeTransitive(a[1..], b[1..], c[1..]);
    }
  }

  lemma {:induction false} NameLeAntisymmetric(a: string, b: string)
    requires NameLe(a, b) && NameLe(b, a)
    ensures a == b
    decreases |a|
  {
    if a != [] {
      NameLeAntisymmetric(a[1..], b[1..]);
      assert a == [a[0]] + a[1..] && b == [b[0]] + b[1..];
    }
  }

  /** Names never decrease along `assets`. */
  predicate ByName(assets: seq<Asset>) {
    forall i, j :: 0 <= i < j < |assets| ==> NameLe(assets[i].name, assets[j].name)
  }

  /** Inserts `a` into a by-name list, ahead of every asset with the same name. */
  function InsertByName(a: Asset, assets: seq<Asset>): (r: seq<Asset>)
    ensures |r| == |assets| + 1
    ensures r[0] == a || (assets != [] && r[0] == assets[0])
  {
    if assets == [] || NameLe(a.name, assets[0].name) then [a] + assets
    else [assets[0]] + InsertByName(a, assets[1..])
  }

  /** Insertion adds exactly the one asset. */
  lemma {:induction false} InsertByNamePermutes(a: Asset, assets: seq<Asset>)
    ensures multiset(InsertByName(a, assets)) == multiset(assets) + multiset{a}
  {
    if assets != [] && !NameLe(a.name, assets[0].name) {
      InsertByNamePermutes(a, assets[1..]);
      assert assets == [assets[0]] + assets[1..];
    }
  }

  /** Insertion into a by-name list keeps it ordered by name. */
  lemma {:induction false} InsertByNameSorted(a: Asset, assets: seq<Asset>)
    requires ByName(assets)
    ensures ByName(InsertByName(a, assets))
  {
    var r := InsertByName(a, assets);
    if assets == [] {
    } else if NameLe(a.name, assets[0].name) {
      forall j | 1 <= j < |r| ensures NameLe(a.name, r[j].name) {
        if j > 1 {
          NameLeTransitive(a.name, assets[0].name, assets[j - 1].name);
        }
      }
    } else {
      NameLeTotal(a.name, assets[0].name);
      var rest := InsertByName(a, assets[1..]);
      InsertByNameSorted(a, assets[1..]);
      assert NameLe(assets[0].name, rest[0].name);
      forall j | 1 <= j < |r| ensures NameLe(assets[0].name, r[j].name) {
        if j > 1 {
          NameLeTransitive(assets[0].name, rest[0].name, rest[j - 1].name);
        }
      }
    }
  }

  /** A copy of `assets` ordered by name. */
  function SortByName(assets: seq<Asset>): (r: seq<Asset>)
    ensures ByName(r)
    ensures multiset(r) == multiset(assets)
    ensures |r| == |assets|
  {
    if assets == [] then []
    else
      var rest := SortByName(assets[1..]);
      SortByNameStep(assets, rest);
      InsertByName(assets[0], rest)
  }

  /** Inserting the head into the sorted tail sorts the whole list. */
  lemma SortByNameStep(assets: seq<Asset>, rest: seq<Asset>)
    requires assets != [] && ByName(rest) && multiset(rest) == multiset(assets[1..])
    ensures ByName(InsertByName(assets[0], rest))
    ensures multiset(InsertByName(assets[0], rest)) == multiset(assets)
  {
    InsertByNameSorted(assets[0], rest);
    InsertByNamePermutes(assets[0], rest);
    assert assets == [assets[0]] + assets[1..];
  }
}
