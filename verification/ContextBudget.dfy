/** Trimming a writing context to its record and character budgets. The length of the serialized context is an
    arbitrary function of it, so a warning added while trimming may well make it longer. */
module ContextBudget {
  datatype Kind = Experiments | Failures | Decisions | Claims

  datatype Record = Record(id: int)

  datatype Warning = CutByRecords(kind: Kind) | CutByCharacters(kind: Kind) | BaseExceeds | Other(text: string)

  datatype Lists = Lists(experiments: seq<Record>, failures: seq<Record>, decisions: seq<Record>, claims: seq<Record>) {
    function Of(kind: Kind): seq<Record> {
      match kind
      case Experiments => experiments
      case Failures => failures
      case Decisions => decisions
      case Claims => claims
    }

    function With(kind: Kind, list: seq<Record>): Lists {
      match kind
      case Experiments => this.(experiments := list)
      case Failures => this.(failures := list)
      case Decisions => this.(decisions := list)
      case Claims => this.(claims := list)
    }

    function Total(): nat {
      |experiments| + |failures| + |decisions| + |claims|
    }
  }

  datatype Context = Context(lists: Lists, warnings: seq<Warning>)

  const KEEPING := [Experiments, Failures, Decisions, Claims]

  const REMOVING := [Claims, Failures, Decisions, Experiments]

  ghost predicate Prefixes(before: Lists, after: Lists) {
    && after.experiments <= before.experiments && after.failures <= before.failures
    && after.decisions <= before.decisions && after.claims <= before.claims
  }

  function Take(list: seq<Record>, n: nat): seq<Record> {
    if n < |list| then list[..n] else list
  }

  /** What is left of the budget when the turn of list `i` comes. */
  function Left(lists: Lists, maximum: nat, i: nat): nat
    requires i <= 4
  {
    if i == 0 then maximum
    else
      var left := Left(lists, maximum, i - 1);
      left - |Take(lists.Of(KEEPING[i - 1]), left)|
  }

  /** The lists after the first `n` turns. */
  function CutTo(lists: Lists, maximum: nat, n: nat): Lists {
    Lists(if n > 0 then Take(lists.experiments, Left(lists, maximum, 0)) else lists.experiments,
          if n > 1 then Take(lists.failures, Left(lists, maximum, 1)) else lists.failures,
          if n > 2 then Take(lists.decisions, Left(lists, maximum, 2)) else lists.decisions,
          if n > 3 then Take(lists.claims, Left(lists, maximum, 3)) else lists.claims)
  }

  function WithinRecords(lists: Lists, maximum: nat): Lists {
    CutTo(lists, maximum, 4)
  }

  lemma CutNext(lists: Lists, maximum: nat, n: nat)
    requires n < 4
    ensures var kind, left := KEEPING[n], Left(lists, maximum, n);
            CutTo(lists, maximum, n + 1) == CutTo(lists, maximum, n).With(kind, Take(lists.Of(kind), left))
            && CutTo(lists, maximum, n).Of(kind) == lists.Of(kind)
            && CutTo(lists, maximum, n + 1).Of(kind) == Take(lists.Of(kind), left)
  {
  }

  function CutWarnings(lists: Lists, maximum: nat, i: nat): seq<Warning>
    requires i <= 4
  {
    if i == 0 then []
    else
      var kind := KEEPING[i - 1];
      CutWarnings(lists, maximum, i - 1)
      + if |lists.Of(kind)| > Left(lists, maximum, i - 1) then [CutByRecords(kind)] else []
  }

  lemma LeftOver(lists: Lists, maximum: nat)
    ensures Left(lists, maximum, 0) == maximum
    ensures forall i :: 0 <= i < 4 ==>
              Left(lists, maximum, i + 1)
              == Left(lists, maximum, i) - |Take(lists.Of(KEEPING[i]), Left(lists, maximum, i))|
  {
  }

  /** The record budget loses nothing it can keep: prefixes, as many records as the budget allows, and no list
      cut while a later one keeps anything. */
  lemma RecordBudget(lists: Lists, maximum: nat)
    ensures var kept := WithinRecords(lists, maximum);
            && Prefixes(lists, kept)
            && kept.Total() == (if lists.Total() < maximum then lists.Total() else maximum)
            && (kept.experiments != lists.experiments ==> kept.failures == [])
            && (kept.experiments != lists.experiments ==> kept.decisions == [])
            && (kept.failures != lists.failures ==> kept.decisions == [])
            && (kept.(claims := []) != lists.(claims := []) ==> kept.claims == [])
  {
    LeftOver(lists, maximum);
    assert Left(lists, maximum, 1) == maximum - |Take(lists.Of(KEEPING[0]), maximum)|;
    assert Left(lists, maximum, 2) == Left(lists, maximum, 1) - |Take(lists.Of(KEEPING[1]), Left(lists, maximum, 1))|;
    assert Left(lists, maximum, 3) == Left(lists, maximum, 2) - |Take(lists.Of(KEEPING[2]), Left(lists, maximum, 2))|;
  }

  function Position(kind: Kind): (i: nat)
    ensures i < 4 && KEEPING[i] == kind
  {
    match kind
    case Experiments => 0
    case Failures => 1
    case Decisions => 2
    case Claims => 3
  }

  /** Exactly the lists that were cut are warned about. */
  lemma {:induction false} CutsWarned(lists: Lists, maximum: nat, n: nat, w: Warning)
    requires n <= 4
    ensures w in CutWarnings(lists, maximum, n) <==>
            w.CutByRecords? && Position(w.kind) < n && |lists.Of(w.kind)| > Left(lists, maximum, Position(w.kind))
    decreases n
  {
    if n > 0 {
      CutsWarned(lists, maximum, n - 1, w);
      assert w.CutByRecords? && Position(w.kind) == n - 1 ==> w == CutByRecords(KEEPING[n - 1]);
      assert Position(KEEPING[n - 1]) == n - 1;
    }
  }

  /** The next record to go: the last of the first list in removal order that has any. */
  function FirstFull(lists: Lists): (kind: Kind)
    requires lists.Total() > 0
    ensures lists.Of(kind) != []
  {
    if lists.claims != [] then Claims
    else if lists.failures != [] then Failures
    else if lists.decisions != [] then Decisions
    else Experiments
  }

  function Trim(c: Context): Context
    requires c.lists.Total() > 0
  {
    var kind := FirstFull(c.lists);
    var list := c.lists.Of(kind);
    Context(c.lists.With(kind, list[..|list| - 1]),
            if CutByCharacters(kind) in c.warnings then c.warnings else c.warnings + [CutByCharacters(kind)])
  }

  /** Trims until the context fits or nothing is left to trim. */
  function TrimAll(c: Context, maximum: int, size: Context -> nat): Context
    decreases c.lists.Total()
  {
    if size(c) <= maximum then c
    else if c.lists.Total() == 0 then c.(warnings := c.warnings + [BaseExceeds])
    else TrimAll(Trim(c), maximum, size)
  }

  function Trimmed(c: Context, n: nat): Context
    requires n <= c.lists.Total()
    ensures Trimmed(c, n).lists.Total() == c.lists.Total() - n
  {
    if n == 0 then c else Trim(Trimmed(c, n - 1))
  }

  lemma {:induction false} TrimmedShift(c: Context, n: nat)
    requires 0 < n <= c.lists.Total()
    ensures Trimmed(c, n) == Trimmed(Trim(c), n - 1)
    decreases n
  {
    if n > 1 {
      TrimmedShift(c, n - 1);
    }
  }

  /** Records go strictly in order, claims first: a list is cut only when those before it are empty. */
  ghost predicate InOrder(before: Lists, after: Lists) {
    && Prefixes(before, after)
    && (after.failures != before.failures ==> after.claims == [])
    && (after.decisions != before.decisions ==> after.claims == [] && after.failures == [])
    && (after.experiments != before.experiments ==> after.claims == [] && after.failures == [] && after.decisions == [])
  }

  /** How often the cutting of a list is warned about. */
  function Times(c: Context, kind: Kind): nat {
    multiset(c.warnings)[CutByCharacters(kind)]
  }

  /** No warning is lost, and of the lists that were not warned about before, exactly those that were cut now are,
      once each. */
  ghost predicate Warned(before: Context, after: Context) {
    && before.warnings <= after.warnings
    && forall kind ::
         Times(after, kind)
         == if Times(before, kind) > 0 then Times(before, kind)
            else if after.lists.Of(kind) != before.lists.Of(kind) then 1 else 0
  }

  lemma TrimInOrder(c: Context)
    requires c.lists.Total() > 0
    ensures InOrder(c.lists, Trim(c).lists) && Warned(c, Trim(c))
  {
  }

  lemma WarnedChain(a: Context, b: Context, c: Context)
    requires Warned(a, b) && Warned(b, c) && Prefixes(a.lists, b.lists) && Prefixes(b.lists, c.lists)
    ensures Warned(a, c)
  {
    forall kind
      ensures c.lists.Of(kind) != a.lists.Of(kind)
              <==> b.lists.Of(kind) != a.lists.Of(kind) || c.lists.Of(kind) != b.lists.Of(kind)
    {
    }
  }

  lemma InOrderChain(a: Lists, b: Lists, c: Lists)
    requires InOrder(a, b) && InOrder(b, c)
    ensures InOrder(a, c)
  {
  }

  lemma {:induction false} TrimmedInOrder(c: Context, n: nat)
    requires n <= c.lists.Total()
    ensures InOrder(c.lists, Trimmed(c, n).lists) && Warned(c, Trimmed(c, n))
    decreases n
  {
    if n > 0 {
      TrimmedInOrder(c, n - 1);
      ExtendOrder(c, Trimmed(c, n - 1));
    }
  }

  lemma ExtendOrder(c: Context, before: Context)
    requires InOrder(c.lists, before.lists) && Warned(c, before) && before.lists.Total() > 0
    ensures InOrder(c.lists, Trim(before).lists) && Warned(c, Trim(before))
  {
    var after := Trim(before);
    TrimInOrder(before);
    WarnedChain(c, before, after);
    InOrderChain(c.lists, before.lists, after.lists);
  }

  /** The result of a trimming: the first context of the sequence that fits, or the empty one with a warning. */
  ghost predicate LeastTrim(c: Context, maximum: int, size: Context -> nat, result: Context, n: nat) {
    && n <= c.lists.Total()
    && (forall k :: 0 <= k < n ==> size(Trimmed(c, k)) > maximum)
    && if size(Trimmed(c, n)) <= maximum then result == Trimmed(c, n)
       else n == c.lists.Total() && result == Trimmed(c, n).(warnings := Trimmed(c, n).warnings + [BaseExceeds])
  }

  lemma LeastShift(c: Context, maximum: int, size: Context -> nat, result: Context, m: nat)
    requires c.lists.Total() > 0 && size(c) > maximum && LeastTrim(Trim(c), maximum, size, result, m)
    ensures LeastTrim(c, maximum, size, result, m + 1)
  {
    forall k | 0 < k <= m + 1 ensures Trimmed(c, k) == Trimmed(Trim(c), k - 1) {
      TrimmedShift(c, k);
    }
    forall k | 0 <= k < m + 1 ensures size(Trimmed(c, k)) > maximum {
      if k > 0 { assert size(Trimmed(Trim(c), k - 1)) > maximum; }
    }
  }

  lemma {:induction false} TrimAllIsLeast(c: Context, maximum: int, size: Context -> nat) returns (n: nat)
    ensures LeastTrim(c, maximum, size, TrimAll(c, maximum, size), n)
    decreases c.lists.Total()
  {
    n := 0;
    if size(c) > maximum && c.lists.Total() > 0 {
      var m := TrimAllIsLeast(Trim(c), maximum, size);
      LeastShift(c, maximum, size, TrimAll(Trim(c), maximum, size), m);
      n := m + 1;
    }
  }

  /** Within the budget or all four lists empty, every list a prefix, in the right order, and no record more
      than necessary. */
  lemma CharacterBudget(c: Context, maximum: int, size: Context -> nat)
    ensures var result := TrimAll(c, maximum, size);
            && InOrder(c.lists, result.lists) && Warned(c, result)
            && (size(result) <= maximum || (result.lists.Total() == 0 && BaseExceeds in result.warnings))
            && exists n :: LeastTrim(c, maximum, size, result, n)
  {
    var n := TrimAllIsLeast(c, maximum, size);
    TrimmedInOrder(c, n);
  }

  class ContextDraft {
    var lists: Lists
    var warnings: seq<Warning>

    constructor (lists: Lists, warnings: seq<Warning>)
      ensures Value() == Context(lists, warnings)
    {
      this.lists, this.warnings := lists, warnings;
    }

    function Value(): Context
      reads this
    {
      Context(lists, warnings)
    }

    method CutOne(kind: Kind, remaining: nat) returns (left: nat)
      modifies this
      ensures lists == old(lists).With(kind, Take(old(lists).Of(kind), remaining))
      ensures left == remaining - |lists.Of(kind)|
      ensures warnings == old(warnings) + if |old(lists).Of(kind)| > remaining then [CutByRecords(kind)] else []
    {
      var values := lists.Of(kind);
      var kept := Take(values, remaining);
      lists := lists.With(kind, kept);
      left := remaining - |kept|;
      if |values| > |kept| { warnings := warnings + [CutByRecords(kind)]; }
    }

    /** Fills the budget list by list and notes every cut. */
    method ApplyRecordBudget(maximum: nat)
      modifies this
      ensures lists == WithinRecords(old(lists), maximum)
      ensures warnings == old(warnings) + CutWarnings(old(lists), maximum, 4)
    {
      var remaining := maximum;
      ghost var all := lists;
      for i := 0 to 4
        invariant remaining == Left(all, maximum, i) && lists == CutTo(all, maximum, i)
        invariant warnings == old(warnings) + CutWarnings(all, maximum, i)
      {
        CutNext(all, maximum, i);
        remaining := CutOne(KEEPING[i], remaining);
      }
    }

    /** The first list in removal order that has records. */
    method FirstToCut() returns (i: nat)
      ensures i == 4 ==> lists.Total() == 0
      ensures i != 4 ==> i < 4 && lists.Total() > 0 && REMOVING[i] == FirstFull(lists)
    {
      i := 0;
      while i < 4 && lists.Of(REMOVING[i]) == []
        invariant 0 <= i <= 4
        invariant i > 0 ==> lists.claims == []
        invariant i > 1 ==> lists.failures == []
        invariant i > 2 ==> lists.decisions == []
        invariant i > 3 ==> lists.experiments == []
      {
        i := i + 1;
      }
    }

    method Pop(kind: Kind)
      requires lists.Total() > 0 && kind == FirstFull(lists)
      modifies this
      ensures Value() == Trim(old(Value()))
    {
      var list := lists.Of(kind);
      lists := lists.With(kind, list[..|list| - 1]);
      if CutByCharacters(kind) !in warnings { warnings := warnings + [CutByCharacters(kind)]; }
    }

    /** Pops records until the context fits. It ends although warnings may lengthen the context. */
    method ApplyCharacterBudget(maximum: int, size: Context -> nat)
      modifies this
      ensures Value() == TrimAll(old(Value()), maximum, size)
    {
      while size(Value()) > maximum
        invariant TrimAll(Value(), maximum, size) == TrimAll(old(Value()), maximum, size)
        decreases lists.Total()
      {
        var i := FirstToCut();
        if i == 4 {
          warnings := warnings + [BaseExceeds];
          return;
        }
        ghost var before := Value();
        Pop(REMOVING[i]);
        assert TrimAll(before, maximum, size) == TrimAll(Trim(before), maximum, size);
      }
    }
  }
}
