/** The interpreter's choice of a `catch` clause agrees with the checker's subtype test. */
module Catching {
  import opened Wrappers
  import opened Syntax
  import opened Values
  import opened Typing
  import opened Checker
  import opened AcceptedHierarchy
  import opened Subtyping

  /** On exception types, being caught is being a subtype. */
  lemma MatchesIsSubtype(classes: ClassTable, exception: Exn, ty: Type)
    requires IsExceptionType(classes, exception.ty) && IsExceptionType(classes, ty)
    ensures Matches(classes, exception, ty) <==> IsSubtype(classes, exception.ty, ty)
  {
  }

  ghost predicate ExceptionClauses(classes: ClassTable, catches: seq<Catch>) {
    forall i :: 0 <= i < |catches| ==> IsExceptionType(classes, catches[i].ty)
  }

  /** No clause type is a subtype of an earlier one. */
  ghost predicate NoneCovered(classes: ClassTable, catches: seq<Catch>) {
    forall i, j :: 0 <= i < j < |catches| ==> !IsSubtype(classes, catches[j].ty, catches[i].ty)
  }

  /** Some exception selects the clause. */
  ghost predicate Live(classes: ClassTable, catches: seq<Catch>, i: nat) {
    exists exception: Exn :: IsExceptionType(classes, exception.ty) && FindCatch(classes, exception, catches) == i
  }

  /** The checker's reachability rule rejects exactly the lists with a clause nothing can select, and
      in the others an exception of exactly a clause's type selects that clause. */
  lemma AcceptedExactlyWhenLive(classes: ClassTable, interfaces: set<nat>, catches: seq<Catch>)
    requires WellFormed(classes, interfaces) && ExceptionClauses(classes, catches)
    ensures NoneCovered(classes, catches) <==> forall i :: 0 <= i < |catches| ==> Live(classes, catches, i)
    ensures NoneCovered(classes, catches) ==> forall i, exception: Exn ::
              0 <= i < |catches| && exception.ty == catches[i].ty ==> FindCatch(classes, exception, catches) == i
  {
    if NoneCovered(classes, catches) {
      forall i, exception: Exn | 0 <= i < |catches| && exception.ty == catches[i].ty
        ensures FindCatch(classes, exception, catches) == i
      {
        forall j | 0 <= j <= i
          ensures Matches(classes, exception, catches[j].ty) <==> j == i
        {
          MatchesIsSubtype(classes, exception, catches[j].ty);
        }
      }
      forall i | 0 <= i < |catches|
        ensures Live(classes, catches, i)
      {
        var exception := Exn(catches[i].ty, "", None, []);
        assert FindCatch(classes, exception, catches) == i;
      }
    }
    if i, j :| 0 <= i < j < |catches| && IsSubtype(classes, catches[j].ty, catches[i].ty) {
      forall exception: Exn | IsExceptionType(classes, exception.ty)
        ensures FindCatch(classes, exception, catches) != j
      {
        MatchesIsSubtype(classes, exception, catches[i].ty);
        MatchesIsSubtype(classes, exception, catches[j].ty);
        if IsSubtype(classes, exception.ty, catches[j].ty) {
          SubtypeTransitive(classes, interfaces, exception.ty, catches[j].ty, catches[i].ty);
        }
      }
      assert !Live(classes, catches, j);
    }
  }

  // ---------------------------------------------------------------- the checker's loop

  ghost predicate UncoveredBy(classes: ClassTable, catches: seq<Catch>, seen: seq<Type>) {
    forall i, j :: 0 <= i < |catches| && 0 <= j < |seen| ==> !IsSubtype(classes, catches[i].ty, seen[j])
  }

  ghost predicate BodiesAccepted(cx: Context, scopes: seq<TypeScope>, catches: seq<Catch>)
    requires scopes != []
  {
    forall i :: 0 <= i < |catches| ==>
      CheckBody(cx, scopes + [map[catches[i].name := catches[i].ty]], catches[i].body).Ok?
  }

  /** The clause-by-clause test, with its flag for a preceding `Exception` clause, is the rule above. */
  lemma {:induction false} CatchLoopExactly(cx: Context, scopes: seq<TypeScope>, catches: seq<Catch>, seen: seq<Type>, all: bool)
    requires scopes != [] && (all <==> seen != [] && seen[|seen| - 1] == TException)
    ensures CheckCatches(cx, scopes, catches, seen, all).Ok? <==>
              && ExceptionClauses(cx.classes, catches) && BodiesAccepted(cx, scopes, catches)
              && NoneCovered(cx.classes, catches) && UncoveredBy(cx.classes, catches, seen)
    decreases catches
  {
    hide CheckBody, IsSubtype;
    if catches != [] {
      var first := catches[0];
      var next := seen + [first.ty];
      CatchLoopExactly(cx, scopes, catches[1..], next, first.ty == TException);
      ExceptionCoversAll(cx.classes, first.ty);
      ClausesSplit(cx, scopes, catches, seen);
      LoopUnfolds(cx, scopes, catches, seen, all);
    }
  }

  lemma ExceptionCoversAll(classes: ClassTable, ty: Type)
    ensures IsExceptionType(classes, ty) ==> IsSubtype(classes, ty, TException)
  {
  }

  lemma ClausesSplit(cx: Context, scopes: seq<TypeScope>, catches: seq<Catch>, seen: seq<Type>)
    requires scopes != [] && catches != []
    ensures var rest := catches[1..];
            && (ExceptionClauses(cx.classes, catches) <==>
                  IsExceptionType(cx.classes, catches[0].ty) && ExceptionClauses(cx.classes, rest))
            && (BodiesAccepted(cx, scopes, catches) <==>
                  CheckBody(cx, scopes + [map[catches[0].name := catches[0].ty]], catches[0].body).Ok? && BodiesAccepted(cx, scopes, rest))
            && (NoneCovered(cx.classes, catches) && UncoveredBy(cx.classes, catches, seen) <==>
                  && (forall j :: 0 <= j < |seen| ==> !IsSubtype(cx.classes, catches[0].ty, seen[j]))
                  && NoneCovered(cx.classes, rest) && UncoveredBy(cx.classes, rest, seen + [catches[0].ty]))
  {
    hide CheckBody, IsSubtype, IsExceptionType;
    var rest := catches[1..];
    assert forall i :: 0 <= i < |rest| ==> rest[i] == catches[i + 1];
    assert forall i :: 0 < i < |catches| ==> catches[i] == rest[i - 1];
    var next := seen + [catches[0].ty];
    assert next[|seen|] == catches[0].ty && forall j :: 0 <= j < |seen| ==> next[j] == seen[j];
  }

  lemma LoopUnfolds(cx: Context, scopes: seq<TypeScope>, catches: seq<Catch>, seen: seq<Type>, all: bool)
    requires scopes != [] && catches != []
    ensures var first := catches[0];
            CheckCatches(cx, scopes, catches, seen, all).Ok? <==>
              && IsExceptionType(cx.classes, first.ty)
              && !all && (forall j :: 0 <= j < |seen| ==> !IsSubtype(cx.classes, first.ty, seen[j]))
              && CheckBody(cx, scopes + [map[first.name := first.ty]], first.body).Ok?
              && CheckCatches(cx, scopes, catches[1..], seen + [first.ty], first.ty == TException).Ok?
  {
  }

  /** In a `try` the checker accepts, every clause is live and catches exceptions of its own type. */
  lemma AcceptedClausesCatch(cx: Context, interfaces: set<nat>, scopes: seq<TypeScope>, catches: seq<Catch>, i: nat, exception: Exn)
    requires WellFormed(cx.classes, interfaces) && scopes != []
    requires CheckCatches(cx, scopes, catches, [], false).Ok? && i < |catches| && exception.ty == catches[i].ty
    ensures FindCatch(cx.classes, exception, catches) == i
  {
    hide CheckBody, IsSubtype;
    CatchLoopExactly(cx, scopes, catches, [], false);
    AcceptedExactlyWhenLive(cx.classes, interfaces, catches);
  }
}
