/** Choosing a code name for a processor, and listing the code names of a table. */
module Codenames {

  datatype Entry = Entry(
    family: int, model: int, stepping: int, extFamily: int, extModel: int, ncores: int, l2cache: int,
    brandCode: int, modelCode: int, name: string)

  datatype CpuData = CpuData(
    family: int, model: int, stepping: int, extFamily: int, extModel: int, numCores: int, l2Cache: int)

  function Same(a: int, b: int): nat { if a == b then 1 else 0 }

  /** How many of the nine columns agree. */
  function Score(e: Entry, data: CpuData, brandCode: int, modelCode: int): nat {
    Same(e.family, data.family) + Same(e.model, data.model) + Same(e.stepping, data.stepping) +
    Same(e.extFamily, data.extFamily) + Same(e.extModel, data.extModel) + Same(e.ncores, data.numCores) +
    Same(e.l2cache, data.l2Cache) + Same(e.brandCode, brandCode) + Same(e.modelCode, modelCode)
  }

  /** Each of the nine columns counts one when it agrees with its own value, and nothing for any other value. */
  lemma EveryColumnCounts(e: Entry, data: CpuData, brandCode: int, modelCode: int, other: int)
    ensures other != data.family ==>
              Score(e.(family := data.family), data, brandCode, modelCode) ==
              Score(e.(family := other), data, brandCode, modelCode) + 1
    ensures other != data.model ==>
              Score(e.(model := data.model), data, brandCode, modelCode) ==
              Score(e.(model := other), data, brandCode, modelCode) + 1
    ensures other != data.stepping ==>
              Score(e.(stepping := data.stepping), data, brandCode, modelCode) ==
              Score(e.(stepping := other), data, brandCode, modelCode) + 1
    ensures other != data.extFamily ==>
              Score(e.(extFamily := data.extFamily), data, brandCode, modelCode) ==
              Score(e.(extFamily := other), data, brandCode, modelCode) + 1
    ensures other != data.extModel ==>
              Score(e.(extModel := data.extModel), data, brandCode, modelCode) ==
              Score(e.(extModel := other), data, brandCode, modelCode) + 1
    ensures other != data.numCores ==>
              Score(e.(ncores := data.numCores), data, brandCode, modelCode) ==
              Score(e.(ncores := other), data, brandCode, modelCode) + 1
    ensures other != data.l2Cache ==>
              Score(e.(l2cache := data.l2Cache), data, brandCode, modelCode) ==
              Score(e.(l2cache := other), data, brandCode, modelCode) + 1
    ensures other != brandCode ==>
              Score(e.(brandCode := brandCode), data, brandCode, modelCode) ==
              Score(e.(brandCode := other), data, brandCode, modelCode) + 1
    ensures other != modelCode ==>
              Score(e.(modelCode := modelCode), data, brandCode, modelCode) ==
              Score(e.(modelCode := other), data, brandCode, modelCode) + 1
  {
  }

  lemma NothingAgrees(e: Entry, data: CpuData, brandCode: int, modelCode: int)
    requires e.family != data.family && e.model != data.model && e.stepping != data.stepping
    requires e.extFamily != data.extFamily && e.extModel != data.extModel && e.ncores != data.numCores
    requires e.l2cache != data.l2Cache && e.brandCode != brandCode && e.modelCode != modelCode
    ensures Score(e, data, brandCode, modelCode) == 0
  {
  }

  /** Wherever a agrees with the processor, b does too. */
  predicate AgreesWherever(a: Entry, b: Entry, data: CpuData, brandCode: int, modelCode: int) {
    (a.family == data.family ==> b.family == data.family) &&
    (a.model == data.model ==> b.model == data.model) &&
    (a.stepping == data.stepping ==> b.stepping == data.stepping) &&
    (a.extFamily == data.extFamily ==> b.extFamily == data.extFamily) &&
    (a.extModel == data.extModel ==> b.extModel == data.extModel) &&
    (a.ncores == data.numCores ==> b.ncores == data.numCores) &&
    (a.l2cache == data.l2Cache ==> b.l2cache == data.l2Cache) &&
    (a.brandCode == brandCode ==> b.brandCode == brandCode) &&
    (a.modelCode == modelCode ==> b.modelCode == modelCode)
  }

  /** A row is never chosen when another one agrees wherever it does and in some column more, or stands before it. */
  lemma OutdoneRowIsNotChosen(table: seq<Entry>, data: CpuData, brandCode: int, modelCode: int, i: nat, j: nat)
    requires i < |table| && j < |table| && AgreesWherever(table[i], table[j], data, brandCode, modelCode)
    requires j < i || !AgreesWherever(table[j], table[i], data, brandCode, modelCode)
    ensures !IsBest(table, data, brandCode, modelCode, i)
  {
    ScoreOutdone(table[i], table[j], data, brandCode, modelCode);
    hide Score, AgreesWherever;
  }

  lemma ScoreOutdone(a: Entry, b: Entry, data: CpuData, brandCode: int, modelCode: int)
    requires AgreesWherever(a, b, data, brandCode, modelCode)
    ensures Score(a, data, brandCode, modelCode) <= Score(b, data, brandCode, modelCode)
    ensures !AgreesWherever(b, a, data, brandCode, modelCode) ==>
              Score(a, data, brandCode, modelCode) < Score(b, data, brandCode, modelCode)
  {
    ColumnOutdone(a.family, b.family, data.family);
    ColumnOutdone(a.model, b.model, data.model);
    ColumnOutdone(a.stepping, b.stepping, data.stepping);
    ColumnOutdone(a.extFamily, b.extFamily, data.extFamily);
    ColumnOutdone(a.extModel, b.extModel, data.extModel);
    ColumnOutdone(a.ncores, b.ncores, data.numCores);
    ColumnOutdone(a.l2cache, b.l2cache, data.l2Cache);
    ColumnOutdone(a.brandCode, b.brandCode, brandCode);
    ColumnOutdone(a.modelCode, b.modelCode, modelCode);
    hide Same;
  }

  lemma ColumnOutdone(a: int, b: int, actual: int)
    requires a == actual ==> b == actual
    ensures Same(a, actual) <= Same(b, actual)
    ensures a != actual && b == actual ==> Same(a, actual) < Same(b, actual)
  {
  }

  /** One column: counted when it agrees. */
  method CountSame(res: nat, column: int, actual: int) returns (r: nat)
    ensures r == res + Same(column, actual)
  {
    r := res;
    if column == actual {
      r := r + 1;
    }
  }

  method ComputeScore(e: Entry, data: CpuData, brandCode: int, modelCode: int) returns (res: nat)
    ensures res == Score(e, data, brandCode, modelCode)
  {
    res := CountSame(0, e.family, data.family);
    res := CountSame(res, e.model, data.model);
    res := CountSame(res, e.stepping, data.stepping);
    res := CountSame(res, e.extFamily, data.extFamily);
    res := CountSame(res, e.extModel, data.extModel);
    res := CountSame(res, e.ncores, data.numCores);
    res := CountSame(res, e.l2cache, data.l2Cache);
    res := CountSame(res, e.brandCode, brandCode);
    res := CountSame(res, e.modelCode, modelCode);
  }

  /** The least index of a maximal score. */
  ghost predicate IsBest(table: seq<Entry>, data: CpuData, brandCode: int, modelCode: int, i: nat) {
    i < |table| &&
    (forall j :: 0 <= j < |table| ==> Score(table[j], data, brandCode, modelCode) <= Score(table[i], data, brandCode, modelCode)) &&
    (forall j :: 0 <= j < i ==> Score(table[j], data, brandCode, modelCode) < Score(table[i], data, brandCode, modelCode))
  }

  method MatchCpuCodename(table: seq<Entry>, data: CpuData, brandCode: int, modelCode: int)
    returns (name: string)
    requires table != []
    ensures exists best: nat :: IsBest(table, data, brandCode, modelCode, best) && name == table[best].name
  {
    hide Score;
    var bestScore: int := -1;
    var bestIndex: nat := 0;
    for i := 0 to |table|
      invariant i == 0 ==> bestScore == -1 && bestIndex == 0
      invariant i > 0 ==> bestIndex < i && bestScore == Score(table[bestIndex], data, brandCode, modelCode)
      invariant forall j :: 0 <= j < i ==> Score(table[j], data, brandCode, modelCode) <= bestScore
      invariant forall j :: 0 <= j < bestIndex ==> Score(table[j], data, brandCode, modelCode) < bestScore
    {
      var t := ComputeScore(table[i], data, brandCode, modelCode);
      if t > bestScore {
        bestScore := t;
        bestIndex := i;
      }
    }
    assert IsBest(table, data, brandCode, modelCode, bestIndex);
    name := table[bestIndex].name;
  }

  /** strstr: the part occurs somewhere in the text. */
  predicate Contains(text: string, part: string) {
    part <= text || (text != "" && Contains(text[1..], part))
  }

  lemma {:induction false} ContainsExactly(text: string, part: string)
    ensures Contains(text, part) <==> exists i :: 0 <= i <= |text| && part <= text[i..]
  {
    if part <= text {
      assert part <= text[0..] by { assert text[0..] == text; }
    } else if text != "" {
      ContainsExactly(text[1..], part);
      assert forall i :: 1 <= i <= |text| ==> text[i..] == text[1..][i - 1..];
      if i :| 0 <= i <= |text| && part <= text[i..] {
        assert i > 0 by { assert text[0..] == text; }
        assert part <= text[1..][i - 1..];
      }
    } else {
      assert text[0..] == text;
    }
  }

  predicate Known(name: string) { !Contains(name, "Unknown") }

  /** The names worth listing, each at its first occurrence. */
  function NameList(table: seq<Entry>): seq<string> {
    if table == [] then [] else
    var names := NameList(table[..|table| - 1]);
    var name := table[|table| - 1].name;
    if Known(name) && name !in names then names + [name] else names
  }

  method GetCpuList(table: seq<Entry>) returns (names: seq<string>)
    ensures names == NameList(table)
  {
    names := [];
    for i := 0 to |table|
      invariant names == NameList(table[..i])
    {
      assert table[..i + 1][..i] == table[..i];
      if !Contains(table[i].name, "Unknown") {
        var good := true;
        var j := |names| - 1;
        while j >= 0
          invariant -1 <= j < |names|
          invariant good ==> forall k :: j < k < |names| ==> names[k] != table[i].name
          invariant !good ==> table[i].name in names
        {
          if names[j] == table[i].name {
            good := false;
            break;
          }
          j := j - 1;
        }
        if good {
          names := names + [table[i].name];
        }
      }
    }
    assert table[..|table|] == table;
  }

  /** The index of the first row with that name, or the length of the table. */
  function FirstRow(table: seq<Entry>, name: string): (r: nat)
    ensures r <= |table|
    ensures r < |table| ==> table[r].name == name
    ensures forall i :: 0 <= i < r ==> table[i].name != name
  {
    if table == [] || table[0].name == name then 0 else
    var r := 1 + FirstRow(table[1..], name);
    assert forall i :: 1 <= i < r ==> table[i] == table[1..][i - 1];
    r
  }

  lemma FirstRowOfPrefix(table: seq<Entry>, n: nat, name: string)
    requires n <= |table| && FirstRow(table[..n], name) < n
    ensures FirstRow(table, name) == FirstRow(table[..n], name)
  {
    var r, p := FirstRow(table, name), FirstRow(table[..n], name);
    assert table[p].name == table[..n][p].name == name;
    assert r < n ==> table[..n][r].name == table[r].name;
  }

  /** Adding a row changes the first row of a name only when the name is new. */
  lemma FirstRowPush(table: seq<Entry>, name: string)
    requires table != []
    ensures var n := |table| - 1;
            FirstRow(table, name) == if FirstRow(table[..n], name) < n then FirstRow(table[..n], name)
                                     else if name == table[n].name then n else n + 1
  {
    var n := |table| - 1;
    if FirstRow(table[..n], name) < n {
      FirstRowOfPrefix(table, n, name);
    } else {
      assert forall i :: 0 <= i < n ==> table[i].name == table[..n][i].name;
    }
  }

  /** Exactly the known names of the table. */
  lemma {:induction false} NameListIsComplete(table: seq<Entry>, name: string)
    ensures name in NameList(table) <==> Known(name) && FirstRow(table, name) < |table|
  {
    hide FirstRow, Known;
    if table == [] {
      EmptyTable(name);
    } else {
      NameListIsComplete(table[..|table| - 1], name);
      FirstRowPush(table, name);
    }
  }

  /** A name is listed exactly when some row has it and "Unknown" occurs nowhere in it. */
  lemma ListedExactly(table: seq<Entry>, name: string)
    ensures name in NameList(table) <==>
            (exists e :: e in table && e.name == name) && !exists i :: 0 <= i <= |name| && "Unknown" <= name[i..]
  {
    NameListIsComplete(table, name);
    ContainsExactly(name, "Unknown");
    hide Contains, NameList;
    if FirstRow(table, name) < |table| {
      assert table[FirstRow(table, name)] in table;
    }
  }

  lemma EmptyTable(name: string)
    ensures FirstRow([], name) == 0
  {
  }

  /** The names are listed in the order of their first rows, so none is listed twice. */
  predicate InTableOrder(table: seq<Entry>, names: seq<string>) {
    forall i, j :: 0 <= i < j < |names| ==> FirstRow(table, names[i]) < FirstRow(table, names[j])
  }

  lemma {:induction false} NameListInTableOrder(table: seq<Entry>)
    ensures InTableOrder(table, NameList(table))
  {
    if table != [] {
      hide FirstRow, Known;
      var n := |table| - 1;
      var names, before := NameList(table), NameList(table[..n]);
      NameListInTableOrder(table[..n]);
      forall i | 0 <= i < |before|
        ensures FirstRow(table, before[i]) == FirstRow(table[..n], before[i]) < n
      {
        NameListIsComplete(table[..n], before[i]);
        FirstRowPush(table, before[i]);
      }
      var last := table[n].name;
      FirstRowPush(table, last);
      NameListIsComplete(table[..n], last);
      NotBefore(table[..n], last);
    }
  }

  lemma NotBefore(table: seq<Entry>, name: string)
    ensures FirstRow(table, name) <= |table|
  {
  }

  /** The name chosen for any processor is listed, unless it says that it is unknown. */
  lemma ChosenNameIsListed(table: seq<Entry>, data: CpuData, brandCode: int, modelCode: int, best: nat)
    requires IsBest(table, data, brandCode, modelCode, best)
    ensures table[best].name in NameList(table) <==> Known(table[best].name)
  {
    NameListIsComplete(table, table[best].name);
    var r := FirstRow(table, table[best].name);
    assert r <= best;
  }
}
