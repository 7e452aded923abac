/** Validation of a plan's matrix: structure, coverage of the acceptance criteria, and the prompt-only rules. */
module MatrixRules {
  import opened Js
  import opened EvidenceMatrix

  datatype Issue =
    | MatrixMissing | BadStructure(index: nat) | Duplicate(criterion: string) | Extra(criterion: string)
    | Uncovered(criterion: string) | CaveatMissing(index: nat) | OnlyPrompted(index: nat)

  /** The structural checks that rows of known kinds can still fail. */
  predicate StructureOk(e: Entry) {
    && e.criterion != "" && e.risk != "" && e.levels != [] && e.evidence != [] && e.roles != [] && e.blocking != []
    && (forall n :: 0 <= n < |e.evidence| ==> e.evidence[n].description != "")
    && (forall n :: 0 <= n < |e.blocking| ==> e.blocking[n] != "")
  }

  predicate Names(matrix: seq<Entry>, c: string) {
    exists i :: 0 <= i < |matrix| && matrix[i].criterion == c
  }

  predicate NamesTwice(matrix: seq<Entry>, c: string) {
    exists i, j :: 0 <= i < j < |matrix| && matrix[i].criterion == c && matrix[j].criterion == c
  }

  /** Every criterion has exactly one row, and every row is for a criterion. */
  predicate CoversExactly(criteria: seq<string>, matrix: seq<Entry>) {
    && matrix != []
    && (forall i :: 0 <= i < |matrix| ==> matrix[i].criterion in criteria)
    && (forall i, j :: 0 <= i < j < |matrix| ==> matrix[i].criterion != matrix[j].criterion)
    && (forall k :: 0 <= k < |criteria| ==> Names(matrix, criteria[k]))
  }

  predicate CaveatOk(e: Entry) {
    PromptOnly in e.levels ==> e.caveat.Some?
  }

  /** A runtime behaviour is enforced by something besides a prompt. */
  predicate EnforcedBeyondPrompt(e: Entry) {
    e.kind.RuntimeBehavior? ==> e.levels == [] || exists i :: 0 <= i < |e.levels| && e.levels[i] != PromptOnly
  }

  predicate PromptRules(matrix: seq<Entry>) {
    forall i :: 0 <= i < |matrix| ==> CaveatOk(matrix[i]) && EnforcedBeyondPrompt(matrix[i])
  }

  /** What a ready plan's matrix must satisfy. */
  predicate Locked(criteria: seq<string>, matrix: seq<Entry>) {
    CoversExactly(criteria, matrix) && PromptRules(matrix) && forall i :: 0 <= i < |matrix| ==> StructureOk(matrix[i])
  }

  /** The coverage check: rows seen twice, rows without a criterion, criteria without a row. */
  method ValidateCoverage(criteria: seq<string>, matrix: seq<Entry>) returns (issues: seq<Issue>)
    ensures issues == [] <==> CoversExactly(criteria, matrix)
    ensures matrix != [] ==> forall c :: Duplicate(c) in issues <==> NamesTwice(matrix, c)
    ensures matrix != [] ==> forall c :: Extra(c) in issues <==> Names(matrix, c) && !NamesTwice(matrix, c) && c !in criteria
    ensures matrix != [] ==> forall c :: Uncovered(c) in issues <==> c in criteria && (!Names(matrix, c) || NamesTwice(matrix, c))
  {
    if matrix == [] {
      return [MatrixMissing];
    }
    var dupes := Duplicates(matrix);
    issues := [];
    for i := 0 to |dupes|
      invariant |issues| == i
      invariant forall x: Issue :: x in issues <==> exists k :: 0 <= k < i && x == Duplicate(dupes[k])
    {
      issues := issues + [Duplicate(dupes[i])];
    }
    var matched: set<string> := {};
    var extras: seq<Issue> := [];
    for i := 0 to |matrix|
      invariant forall c :: c in matched <==> c in criteria && c !in dupes && Names(matrix[..i], c)
      invariant forall x: Issue :: x in extras <==> x.Extra? && x.criterion !in criteria && x.criterion !in dupes && Names(matrix[..i], x.criterion)
    {
      NamesOneMore(matrix, i);
      var c := matrix[i].criterion;
      if c !in dupes {
        if c in criteria {
          matched := matched + {c};
        } else {
          extras := extras + [Extra(c)];
        }
      }
    }
    assert matrix[..|matrix|] == matrix;
    var missing: seq<Issue> := [];
    for i := 0 to |criteria|
      invariant forall x: Issue :: x in missing <==> x.Uncovered? && x.criterion in criteria[..i] && x.criterion !in matched
    {
      if criteria[i] !in matched {
        missing := missing + [Uncovered(criteria[i])];
      }
    }
    assert criteria[..|criteria|] == criteria;
    issues := issues + extras + missing;
    CoverageIff(criteria, matrix, issues);
  }

  lemma NamesOneMore(matrix: seq<Entry>, i: nat)
    requires i < |matrix|
    ensures forall c :: Names(matrix[..i + 1], c) <==> Names(matrix[..i], c) || matrix[i].criterion == c
  {
    forall c
      ensures Names(matrix[..i + 1], c) <==> Names(matrix[..i], c) || matrix[i].criterion == c
    {
      if Names(matrix[..i], c) {
        var k :| 0 <= k < i && matrix[..i][k].criterion == c;
        assert matrix[..i + 1][k].criterion == c;
      }
      if matrix[i].criterion == c {
        assert matrix[..i + 1][i].criterion == c;
      }
    }
  }

  /** The criteria that two rows name. */
  method Duplicates(matrix: seq<Entry>) returns (dupes: seq<string>)
    ensures forall c :: c in dupes <==> NamesTwice(matrix, c)
  {
    var seen := {};
    dupes := [];
    for i := 0 to |matrix|
      invariant forall c :: c in seen <==> Names(matrix[..i], c)
      invariant forall c :: c in dupes <==> NamesTwice(matrix[..i], c)
    {
      NamesOneMore(matrix, i);
      TwiceOneMore(matrix, i);
      var c := matrix[i].criterion;
      if c in seen && c !in dupes {
        dupes := dupes + [c];
      }
      seen := seen + {c};
    }
    assert matrix[..|matrix|] == matrix;
  }

  lemma TwiceOneMore(matrix: seq<Entry>, i: nat)
    requires i < |matrix|
    ensures forall c :: NamesTwice(matrix[..i + 1], c) <==> NamesTwice(matrix[..i], c) || (matrix[i].criterion == c && Names(matrix[..i], c))
  {
    forall c
      ensures NamesTwice(matrix[..i + 1], c) <==> NamesTwice(matrix[..i], c) || (matrix[i].criterion == c && Names(matrix[..i], c))
    {
      if NamesTwice(matrix[..i], c) {
        var j, k :| 0 <= j < k < i && matrix[..i][j].criterion == c && matrix[..i][k].criterion == c;
        assert matrix[..i + 1][j].criterion == c && matrix[..i + 1][k].criterion == c;
      }
      if matrix[i].criterion == c && Names(matrix[..i], c) {
        var j :| 0 <= j < i && matrix[..i][j].criterion == c;
        assert matrix[..i + 1][j].criterion == c && matrix[..i + 1][i].criterion == c;
      }
      if NamesTwice(matrix[..i + 1], c) {
        var j, k :| 0 <= j < k < i + 1 && matrix[..i + 1][j].criterion == c && matrix[..i + 1][k].criterion == c;
        assert matrix[..i][j].criterion == c;
        assert k < i ==> matrix[..i][k].criterion == c;
      }
    }
  }

  lemma CoverageIff(criteria: seq<string>, matrix: seq<Entry>, issues: seq<Issue>)
    requires matrix != []
    requires forall x :: x in issues ==> x.Duplicate? || x.Extra? || x.Uncovered?
    requires forall c :: Duplicate(c) in issues <==> NamesTwice(matrix, c)
    requires forall c :: Extra(c) in issues <==> Names(matrix, c) && !NamesTwice(matrix, c) && c !in criteria
    requires forall c :: Uncovered(c) in issues <==> c in criteria && (!Names(matrix, c) || NamesTwice(matrix, c))
    ensures issues == [] <==> CoversExactly(criteria, matrix)
  {
    if issues == [] {
      forall i | 0 <= i < |matrix|
        ensures matrix[i].criterion in criteria
      {
        assert Names(matrix, matrix[i].criterion);
        assert Extra(matrix[i].criterion) !in issues && Duplicate(matrix[i].criterion) !in issues;
      }
      forall i, j | 0 <= i < j < |matrix|
        ensures matrix[i].criterion != matrix[j].criterion
      {
        assert Duplicate(matrix[i].criterion) !in issues;
      }
      forall k | 0 <= k < |criteria|
        ensures Names(matrix, criteria[k])
      {
        assert Uncovered(criteria[k]) !in issues;
      }
    } else {
      var x := issues[0];
      assert x in issues;
      hide NamesTwice;
      UnexactBecause(criteria, matrix, x);
    }
  }

  lemma UnexactBecause(criteria: seq<string>, matrix: seq<Entry>, x: Issue)
    requires x.Duplicate? || x.Extra? || x.Uncovered?
    requires x.Duplicate? ==> NamesTwice(matrix, x.criterion)
    requires x.Extra? ==> Names(matrix, x.criterion) && x.criterion !in criteria
    requires x.Uncovered? ==> x.criterion in criteria && (!Names(matrix, x.criterion) || NamesTwice(matrix, x.criterion))
    ensures !CoversExactly(criteria, matrix)
  {
  }

  /** The whole validation, loop by loop; nothing is reported exactly when a ready plan is locked, or a draft well formed. */
  method ValidateMatrix(criteria: seq<string>, matrix: seq<Entry>, ready: bool) returns (issues: seq<Issue>)
    ensures issues == [] <==> if ready then Locked(criteria, matrix) else forall i :: 0 <= i < |matrix| ==> StructureOk(matrix[i])
  {
    issues := if ready && matrix == [] then [MatrixMissing] else [];
    for i := 0 to |matrix|
      invariant issues == [] <==> !(ready && matrix == []) && forall k :: 0 <= k < i ==> StructureOk(matrix[k])
    {
      if !StructureOk(matrix[i]) {
        issues := issues + [BadStructure(i)];
      }
    }
    if ready {
      var coverage := ValidateCoverage(criteria, matrix);
      issues := issues + coverage;
      ghost var before := issues;
      for i := 0 to |matrix|
        invariant issues == [] <==> before == [] && forall k :: 0 <= k < i ==> CaveatOk(matrix[k]) && EnforcedBeyondPrompt(matrix[k])
      {
        if !CaveatOk(matrix[i]) {
          issues := issues + [CaveatMissing(i)];
        }
        if !EnforcedBeyondPrompt(matrix[i]) {
          issues := issues + [OnlyPrompted(i)];
        }
      }
    }
  }
}
