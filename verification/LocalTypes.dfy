/** Run-length encoded local types. */
module RunLengths {
  import opened Syntax

  predicate Runs(decls: seq<LocalDecl>) {
    && (forall i :: 0 <= i < |decls| ==> decls[i].count > 0)
    && (forall i :: 0 < i < |decls| ==> decls[i - 1].ty != decls[i].ty)
  }

  lemma {:induction false} DeclTypesSnoc(decls: seq<LocalDecl>, d: LocalDecl)
    ensures DeclTypes(decls + [d]) == DeclTypes(decls) + seq(d.count, _ => d.ty)
    ensures LocalCount(decls + [d]) == LocalCount(decls) + d.count
    decreases |decls|
  {
    if decls == [] {
      assert [d][1..] == [];
    } else {
      DeclTypesSnoc(decls[1..], d);
      assert (decls + [d])[1..] == decls[1..] + [d];
    }
  }

  /** The first run is as long as it can be. */
  lemma {:induction false} FirstRun(decls: seq<LocalDecl>, i: nat)
    requires Runs(decls) && decls != [] && i <= decls[0].count && i < LocalCount(decls)
    ensures DeclTypes(decls)[i] == decls[0].ty <==> i < decls[0].count
  {
    if i == decls[0].count {
      assert decls[1..] != [];
      assert DeclTypes(decls)[i] == DeclTypes(decls[1..])[0];
      assert decls[1..][0] == decls[1];
    }
  }

  /** There is only one way to write a type vector as runs. */
  lemma {:induction false} RunsUnique(a: seq<LocalDecl>, b: seq<LocalDecl>)
    requires Runs(a) && Runs(b) && DeclTypes(a) == DeclTypes(b)
    ensures a == b
    decreases |a|
  {
    if a == [] || b == [] {
      assert LocalCount(a) == LocalCount(b);
    } else {
      assert DeclTypes(a)[0] == a[0].ty && DeclTypes(b)[0] == b[0].ty;
      if a[0].count < b[0].count {
        FirstRun(b, a[0].count);
        FirstRun(a, a[0].count);
      } else if b[0].count < a[0].count {
        FirstRun(a, b[0].count);
        FirstRun(b, b[0].count);
      }
      assert DeclTypes(a)[a[0].count..] == DeclTypes(a[1..]);
      assert DeclTypes(b)[b[0].count..] == DeclTypes(b[1..]);
      RunsUnique(a[1..], b[1..]);
      assert a == [a[0]] + a[1..] && b == [b[0]] + b[1..];
    }
  }

  /** The finished runs and the one that is still growing. */
  predicate SoFar(decls: seq<LocalDecl>, ty: Type, count: nat, types: seq<Type>) {
    Runs(decls) && (decls != [] ==> decls[|decls| - 1].ty != ty) && DeclTypes(decls) + seq(count, _ => ty) == types
  }

  lemma NoRuns(types: seq<Type>)
    ensures Runs([]) && DeclTypes([]) == []
    ensures types != [] ==> SoFar([], types[0], 1, types[..1])
  {
  }

  lemma SameRun(decls: seq<LocalDecl>, ty: Type, count: nat, types: seq<Type>)
    requires SoFar(decls, ty, count, types)
    ensures SoFar(decls, ty, count + 1, types + [ty])
  {
    assert seq(count + 1, _ => ty) == seq(count, _ => ty) + [ty];
  }

  lemma LastRun(decls: seq<LocalDecl>, ty: Type, count: nat, types: seq<Type>)
    requires SoFar(decls, ty, count, types) && count > 0
    ensures Runs(decls + [LocalDecl(count, ty)]) && DeclTypes(decls + [LocalDecl(count, ty)]) == types
  {
    hide DeclTypes;
    DeclTypesSnoc(decls, LocalDecl(count, ty));
  }

  lemma NextRun(decls: seq<LocalDecl>, ty: Type, count: nat, types: seq<Type>, next: Type)
    requires SoFar(decls, ty, count, types) && count > 0 && next != ty
    ensures SoFar(decls + [LocalDecl(count, ty)], next, 1, types + [next])
  {
    hide DeclTypes;
    LastRun(decls, ty, count, types);
    assert seq(1, _ => next) == [next];
  }

  class LocalTypes {
    var decls: seq<LocalDecl>

    constructor ()
      ensures decls == []
    {
      decls := [];
    }

    method AppendDecl(ty: Type, count: nat)
      requires count > 0
      modifies this
      ensures DeclTypes(decls) == old(DeclTypes(decls)) + seq(count, _ => ty)
    {
      DeclTypesSnoc(decls, LocalDecl(count, ty));
      decls := decls + [LocalDecl(count, ty)];
    }

    /** Maximal non-empty runs that say exactly `types`. */
    method Set(types: seq<Type>)
      modifies this
      ensures Runs(decls) && DeclTypes(decls) == types
    {
      hide DeclTypes, Runs;
      decls := [];
      NoRuns(types);
      if |types| == 0 {
        return;
      }
      var ty, count := types[0], 1;
      for i := 1 to |types|
        invariant 1 <= count && SoFar(decls, ty, count, types[..i])
      {
        assert types[..i + 1] == types[..i] + [types[i]];
        if types[i] != ty {
          NextRun(decls, ty, count, types[..i], types[i]);
          decls := decls + [LocalDecl(count, ty)];
          ty, count := types[i], 1;
        } else {
          SameRun(decls, ty, count, types[..i]);
          count := count + 1;
        }
      }
      assert types[..|types|] == types;
      LastRun(decls, ty, count, types);
      decls := decls + [LocalDecl(count, ty)];
    }

    method Size() returns (n: nat)
      ensures n == |DeclTypes(decls)|
    {
      n := 0;
      for i := 0 to |decls|
        invariant n == LocalCount(decls[..i])
      {
        DeclTypesSnoc(decls[..i], decls[i]);
        assert decls[..i + 1] == decls[..i] + [decls[i]];
        n := n + decls[i].count;
      }
      assert decls[..|decls|] == decls;
    }

    /** `operator[]`, without expanding anything. */
    method Get(index: nat) returns (ty: Type)
      requires index < LocalCount(decls)
      ensures ty == DeclTypes(decls)[index]
    {
      ghost var all := DeclTypes(decls);
      var count: nat := 0;
      for i := 0 to |decls|
        invariant count <= index && count + LocalCount(decls[i..]) == |all|
        invariant all[count..] == DeclTypes(decls[i..])
      {
        assert decls[i..][1..] == decls[i + 1..];
        if index < count + decls[i].count {
          assert all[index] == all[count..][index - count];
          return decls[i].ty;
        }
        assert all[count..][decls[i].count..] == all[count + decls[i].count..];
        count := count + decls[i].count;
      }
      assert false;
    }
  }
}
