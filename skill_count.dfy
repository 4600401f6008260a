/**
 * `countEmployeesByTechnical`: the number of (employee, technical entry) pairs per skill name.
 * An employee who lists the same skill twice contributes two to its count.
 */
module SkillCount {
  import opened Wrappers
  import opened Records
  import opened Counting

  /** `tech.technicalId.name` for each entry of a `technical` list, in order. */
  function TechnicalNames(technical: seq<TechnicalEntry>): (names: seq<string>)
    ensures |names| == |technical|
    ensures forall j :: 0 <= j < |names| ==> names[j] == technical[j].technicalId.name
  {
    seq(|technical|, j requires 0 <= j < |technical| => technical[j].technicalId.name)
  }

  /** The skill names visited by the nested loop, employee by employee. */
  function SkillNames(employees: seq<Employee>): seq<string> {
    if employees == [] then []
    else SkillNames(employees[..|employees| - 1]) + TechnicalNames(employees[|employees| - 1].technical)
  }

  /**
   * Counts employees' technical entries by skill name: the result holds each name once, in
   * order of first occurrence, with the number of entries carrying it.
   */
  method CountEmployeesByTechnical(employees: seq<Employee>) returns (employeeTechnicalData: seq<Entry<string>>)
    ensures employeeTechnicalData == Tally(SkillNames(employees))
  {
    employeeTechnicalData := [];
    var i := 0;
    while i < |employees|
      invariant 0 <= i <= |employees|
      invariant employeeTechnicalData == Tally(SkillNames(employees[..i]))
    {
      var technical := employees[i].technical;
      ghost var seen := SkillNames(employees[..i]);
      var j := 0;
      assert seen + TechnicalNames(technical)[..0] == seen;
      while j < |technical|
        invariant 0 <= j <= |technical|
        invariant employeeTechnicalData == Tally(seen + TechnicalNames(technical)[..j])
      {
        var techName := technical[j].technicalId.name;
        CountOneEntry(seen, technical, j);
        employeeTechnicalData := Bump(employeeTechnicalData, techName);
        j := j + 1;
      }
      assert TechnicalNames(technical)[..j] == TechnicalNames(technical);
      SkillNamesSnoc(employees, i);
      i := i + 1;
    }
    assert employees[..i] == employees;
  }

  /** Counting the skill of entry `j` is one `Bump` of the tally of what was counted before it. */
  lemma CountOneEntry(seen: seq<string>, technical: seq<TechnicalEntry>, j: nat)
    requires j < |technical|
    ensures Tally(seen + TechnicalNames(technical)[..j + 1])
      == Bump(Tally(seen + TechnicalNames(technical)[..j]), technical[j].technicalId.name)
  {
    var names := TechnicalNames(technical);
    assert seen + names[..j + 1] == (seen + names[..j]) + [names[j]];
    TallySnoc(seen + names[..j], names[j]);
  }

  /** After employee `i`'s whole list, the counted names are those of the first `i + 1` employees. */
  lemma SkillNamesSnoc(employees: seq<Employee>, i: nat)
    requires i < |employees|
    ensures SkillNames(employees[..i + 1]) == SkillNames(employees[..i]) + TechnicalNames(employees[i].technical)
  {
    assert employees[..i + 1][..i] == employees[..i];
  }

  /** Total length of all employees' `technical` lists. */
  function TechnicalEntries(employees: seq<Employee>): nat {
    if employees == [] then 0
    else TechnicalEntries(employees[..|employees| - 1]) + |employees[|employees| - 1].technical|
  }

  /** Number of entries of one `technical` list that name the skill `name`. */
  function EntriesNamed(technical: seq<TechnicalEntry>, name: string): nat {
    if technical == [] then 0
    else
      EntriesNamed(technical[..|technical| - 1], name)
        + (if technical[|technical| - 1].technicalId.name == name then 1 else 0)
  }

  /** Number of (employee, technical entry) pairs whose entry names the skill `name`. */
  function PairsNamed(employees: seq<Employee>, name: string): nat {
    if employees == [] then 0
    else PairsNamed(employees[..|employees| - 1], name) + EntriesNamed(employees[|employees| - 1].technical, name)
  }

  lemma {:induction false} CountOfAppend<K>(k: K, a: seq<K>, b: seq<K>)
    ensures CountOf(k, a + b) == CountOf(k, a) + CountOf(k, b)
    decreases |b|
  {
    if b == [] {
      assert a + b == a;
    } else {
      assert (a + b)[..|a + b| - 1] == a + b[..|b| - 1];
      CountOfAppend(k, a, b[..|b| - 1]);
    }
  }

  lemma {:induction false} NamesCount(technical: seq<TechnicalEntry>, name: string)
    ensures CountOf(name, TechnicalNames(technical)) == EntriesNamed(technical, name)
    decreases |technical|
  {
    if technical != [] {
      var n := |technical| - 1;
      assert TechnicalNames(technical)[..n] == TechnicalNames(technical[..n]);
      NamesCount(technical[..n], name);
    }
  }

  lemma {:induction false} SkillNamesCount(employees: seq<Employee>, name: string)
    ensures CountOf(name, SkillNames(employees)) == PairsNamed(employees, name)
    decreases |employees|
  {
    if employees != [] {
      var last := employees[|employees| - 1];
      SkillNamesCount(employees[..|employees| - 1], name);
      CountOfAppend(name, SkillNames(employees[..|employees| - 1]), TechnicalNames(last.technical));
      NamesCount(last.technical, name);
    }
  }

  /**
   * The count stored under a skill name is the number of (employee, technical entry) pairs
   * naming that skill, duplicates within one employee included; a name no entry carries has
   * no entry in the dictionary.
   */
  lemma SkillCountMeaning(employees: seq<Employee>, name: string)
    ensures var n := PairsNamed(employees, name);
      Lookup(Tally(SkillNames(employees)), name) == if n > 0 then Some(n) else None
  {
    SkillNamesCount(employees, name);
    TallyMeaning(SkillNames(employees), name);
  }

  lemma {:induction false} SkillNamesLength(employees: seq<Employee>)
    ensures |SkillNames(employees)| == TechnicalEntries(employees)
    decreases |employees|
  {
    if employees != [] {
      SkillNamesLength(employees[..|employees| - 1]);
    }
  }

  /** The skill counts add up to the total number of technical entries; none, no entries. */
  lemma SkillCountSum(employees: seq<Employee>)
    ensures SumCounts(Tally(SkillNames(employees))) == TechnicalEntries(employees)
    ensures TechnicalEntries(employees) == 0 <==> Tally(SkillNames(employees)) == []
  {
    SkillNamesLength(employees);
    TallySum(SkillNames(employees));
  }

  /** One employee whose `technical` list names "Go" twice. */
  const GoTwice: seq<Employee> :=
    [Employee("e1", "Ann", [TechnicalEntry(Technical("t1", "Go")), TechnicalEntry(Technical("t1", "Go"))])]

  /** Both entries are counted: {"Go": 2}. */
  lemma DuplicateSkillCountedTwice()
    ensures Tally(SkillNames(GoTwice)) == [Entry("Go", 2)]
  {
    var names := TechnicalNames(GoTwice[0].technical);
    assert names[0] == "Go" && names[1] == "Go";
    assert names == ["Go", "Go"];
    assert GoTwice[..0] == [];
    assert SkillNames(GoTwice) == SkillNames([]) + names == ["Go", "Go"];
    TallyTwice("Go");
  }
}
