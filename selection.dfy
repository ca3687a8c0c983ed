/** How bbcrack chooses the transform classes it searches: the tier of the
    `-l` level, or, when `-t` is given, the classes whose `gen_id` is in its
    comma-separated list, in the order they are requested. */
module Selection {
  import opened Catalog

  datatype Option<T> = None | Some(value: T)

  // ---------------------------------------------------------------------
  // `str.split(',')` and its inverse.

  /** Python's `s.split(',')`: the pieces between commas, empty ones
      included, so there is always at least one. */
  function Split(s: string): (parts: seq<string>)
    ensures |parts| >= 1
  {
    if s == [] then [""]
    else
      var rest := Split(s[1..]);
      if s[0] == ',' then [""] + rest else [[s[0]] + rest[0]] + rest[1..]
  }

  /** `','.join(parts)`. */
  function Join(parts: seq<string>): string
    requires |parts| >= 1
  {
    if |parts| == 1 then parts[0] else parts[0] + "," + Join(parts[1..])
  }

  /** Joining the pieces with commas gives back the string. */
  lemma {:induction false} JoinSplit(s: string)
    ensures Join(Split(s)) == s
  {
    if s != [] {
      var rest := Split(s[1..]);
      JoinSplit(s[1..]);
      if s[0] == ',' {
        assert Split(s) == [""] + rest;
        assert ([""] + rest)[1..] == rest;
      } else {
        var parts := [[s[0]] + rest[0]] + rest[1..];
        assert Split(s) == parts;
        if |rest| == 1 {
          assert Join(parts) == [s[0]] + rest[0];
        } else {
          assert parts[1..] == rest[1..];
          assert Join(parts) == [s[0]] + (rest[0] + "," + Join(rest[1..]));
        }
      }
    }
  }

  /** No piece holds a comma. */
  lemma {:induction false} SplitNoComma(s: string)
    ensures forall i | 0 <= i < |Split(s)| :: ',' !in Split(s)[i]
  {
    if s != [] {
      SplitNoComma(s[1..]);
      var rest := Split(s[1..]);
      if s[0] != ',' {
        assert ',' !in [s[0]] + rest[0] by {
          assert forall c | c in [s[0]] + rest[0] :: c == s[0] || c in rest[0];
        }
      }
    }
  }

  lemma {:induction false} SplitPiece(a: string)
    requires ',' !in a
    ensures Split(a) == [a]
  {
    if a != [] {
      SplitPiece(a[1..]);
      assert [a[0]] + a[1..] == a;
    }
  }

  lemma {:induction false} SplitAtComma(a: string, b: string)
    requires ',' !in a
    ensures Split(a + "," + b) == [a] + Split(b)
  {
    if a == [] {
      assert a + "," + b == [','] + b;
      assert (a + "," + b)[1..] == b;
    } else {
      SplitAtComma(a[1..], b);
      assert (a + "," + b)[1..] == a[1..] + "," + b;
      assert [a[0]] + a[1..] == a;
    }
  }

  /** Splitting pieces joined with commas gives back the pieces, when none
      of them holds a comma. */
  lemma {:induction false} SplitJoin(parts: seq<string>)
    requires |parts| >= 1
    requires forall i | 0 <= i < |parts| :: ',' !in parts[i]
    ensures Split(Join(parts)) == parts
  {
    if |parts| == 1 {
      SplitPiece(parts[0]);
    } else {
      SplitJoin(parts[1..]);
      SplitAtComma(parts[0], Join(parts[1..]));
    }
  }

  // ---------------------------------------------------------------------
  // Matching names against tier 3.

  /** The classes of `cs` whose `gen_id` is `name`, in the order of `cs`
      (the inner loop over `transform_classes3`). */
  function Lookup(name: string, cs: seq<Family>): seq<Family>
  {
    if cs == [] then []
    else
      var last := cs[|cs| - 1];
      Lookup(name, cs[..|cs| - 1]) + (if GenId(last) == name then [last] else [])
  }

  /** The classes requested by a list of names, name by name (the outer
      loop over the names). */
  function Requested(names: seq<string>): seq<Family>
  {
    if names == [] then []
    else Requested(names[..|names| - 1]) + Lookup(names[|names| - 1], Tier3())
  }

  lemma {:induction false} LookupMembers(name: string, cs: seq<Family>, f: Family)
    ensures f in Lookup(name, cs) <==> f in cs && GenId(f) == name
  {
    if cs != [] {
      LookupMembers(name, cs[..|cs| - 1], f);
      assert cs == cs[..|cs| - 1] + [cs[|cs| - 1]];
    }
  }

  /** The fifteen `gen_id`s of tier 3 are pairwise different. */
  lemma GenIdsDistinct()
    ensures forall i, j | 0 <= i < j < |Tier3()| :: GenId(Tier3()[i]) != GenId(Tier3()[j])
  {
  }

  lemma LookupEmpty(name: string, cs: seq<Family>)
    ensures Lookup(name, cs) == [] <==> forall i | 0 <= i < |cs| :: GenId(cs[i]) != name
  {
    if Lookup(name, cs) == [] {
      forall i | 0 <= i < |cs| ensures GenId(cs[i]) != name {
        LookupMembers(name, cs, cs[i]);
      }
    } else {
      LookupMembers(name, cs, Lookup(name, cs)[0]);
    }
  }

  lemma {:induction false} LookupAtMostOne(name: string, cs: seq<Family>)
    requires forall i, j | 0 <= i < j < |cs| :: GenId(cs[i]) != GenId(cs[j])
    ensures |Lookup(name, cs)| <= 1
    ensures forall f | f in Lookup(name, cs) :: GenId(f) == name
  {
    if cs != [] {
      var init := cs[..|cs| - 1];
      var last := cs[|cs| - 1];
      LookupAtMostOne(name, init);
      forall f | f in Lookup(name, cs) ensures GenId(f) == name {
        LookupMembers(name, cs, f);
      }
      if GenId(last) == name {
        forall i | 0 <= i < |init| ensures GenId(init[i]) != name {
          assert init[i] == cs[i];
        }
        LookupEmpty(name, init);
      }
    }
  }

  /** `name` is the `gen_id` of some class. */
  predicate IsGenId(name: string)
  {
    exists f: Family :: GenId(f) == name
  }

  /** A name picks at most one class of tier 3, and one exactly when it is
      some class's `gen_id`. */
  lemma LookupTier3(name: string)
    ensures |Lookup(name, Tier3())| <= 1
    ensures Lookup(name, Tier3()) != [] <==> IsGenId(name)
    ensures forall f | f in Lookup(name, Tier3()) :: GenId(f) == name
  {
    GenIdsDistinct();
    LookupAtMostOne(name, Tier3());
    TiersNested();
    if f: Family :| GenId(f) == name {
      LookupMembers(name, Tier3(), f);
    }
    if Lookup(name, Tier3()) != [] {
      assert GenId(Lookup(name, Tier3())[0]) == name;
    }
  }

  /** Every class whose `gen_id` is requested is selected, and no other. */
  lemma {:induction false} RequestedMembers(names: seq<string>, f: Family)
    ensures f in Requested(names) <==> GenId(f) in names
  {
    if names != [] {
      var init := names[..|names| - 1];
      RequestedMembers(init, f);
      LookupMembers(names[|names| - 1], Tier3(), f);
      TiersNested();
      assert names == init + [names[|names| - 1]];
    }
  }

  /** The requested names that are some class's `gen_id`, in request
      order; the others are passed over. */
  function Known(names: seq<string>): seq<string>
  {
    if names == [] then []
    else
      var last := names[|names| - 1];
      Known(names[..|names| - 1]) + (if IsGenId(last) then [last] else [])
  }

  /** The selection holds one class per known name, in the order requested:
      unknown names are skipped, and a name given twice is selected twice. */
  lemma {:induction false} RequestedInOrder(names: seq<string>)
    ensures |Requested(names)| == |Known(names)|
    ensures forall i | 0 <= i < |Known(names)| :: GenId(Requested(names)[i]) == Known(names)[i]
  {
    if names != [] {
      var n := |names| - 1;
      var init := names[..n];
      RequestedInOrder(init);
      LookupTier3(names[n]);
      if IsGenId(names[n]) {
        AppendNamed(Requested(init), Lookup(names[n], Tier3()), Known(names));
      } else {
        assert Requested(names) == Requested(init) + [];
        assert Known(names) == Known(init) + [];
      }
    }
  }

  /** When every name is a `gen_id`, every name is known, so the selection
      holds one class per name, in request order. */
  lemma {:induction false} KnownAllNames(names: seq<string>)
    requires forall i | 0 <= i < |names| :: IsGenId(names[i])
    ensures Known(names) == names
  {
    if names != [] {
      var n := |names| - 1;
      var init := names[..n];
      forall i | 0 <= i < n ensures IsGenId(init[i]) {
        assert init[i] == names[i];
      }
      KnownAllNames(init);
      assert names == init + [names[n]];
    }
  }

  /** One more name found: the selection so far, with its class appended. */
  lemma AppendNamed(front: seq<Family>, found: seq<Family>, names: seq<string>)
    requires |names| >= 1 && |front| == |names| - 1
    requires forall i | 0 <= i < |front| :: GenId(front[i]) == names[i]
    requires |found| <= 1 && found != []
    requires forall f | f in found :: GenId(f) == names[|names| - 1]
    ensures |front + found| == |names|
    ensures forall i | 0 <= i < |names| :: GenId((front + found)[i]) == names[i]
  {
    assert found[0] in found;
  }

  /** Nothing is selected exactly when no name is a `gen_id`. */
  lemma RequestedEmpty(names: seq<string>)
    ensures Requested(names) == [] <==>
      forall i | 0 <= i < |names| :: !IsGenId(names[i])
  {
    if Requested(names) == [] {
      forall i | 0 <= i < |names| ensures !IsGenId(names[i]) {
        forall f: Family ensures GenId(f) != names[i] {
          RequestedMembers(names, f);
        }
      }
    } else {
      var f := Requested(names)[0];
      RequestedMembers(names, f);
    }
  }

  /** The two loops of `-t`: for each requested name, each class of tier 3
      with that `gen_id` is appended. */
  method SelectClasses(names: seq<string>) returns (classes: seq<Family>)
    ensures classes == Requested(names)
  {
    var tier3 := Tier3();
    classes := [];
    for n := 0 to |names|
      invariant classes == Requested(names[..n])
    {
      var name := names[n];
      ghost var before := classes;
      for t := 0 to |tier3|
        invariant classes == before + Lookup(name, tier3[..t])
      {
        assert tier3[..t + 1][..t] == tier3[..t];
        if GenId(tier3[t]) == name {
          classes := classes + [tier3[t]];
        }
      }
      assert tier3[..|tier3|] == tier3;
      assert names[..n + 1][..n] == names[..n];
    }
    assert names[..|names|] == names;
  }

  // ---------------------------------------------------------------------
  // The command line.

  /** What the options lead to: the listing of `-t list`, a search over
      some classes, or the exit for a `-t` that names no class. */
  datatype Choice =
    | ListTransforms
    | Search(classes: seq<Family>)
    | NoSuchTransform(requested: string)

  /** `-l level` and `-t transform` (`None` when `-t` is not given). */
  method ChooseClasses(level: int, transform: Option<string>) returns (c: Choice)
    ensures transform == Some("list") ==> c == ListTransforms
    ensures (transform == None || transform == Some("")) ==> c == Search(ClassesForLevel(level))
    ensures transform.Some? && transform.value != "list" && transform.value != "" ==>
      match c
      case Search(classes) =>
        classes == Requested(Split(transform.value)) && classes != []
      case NoSuchTransform(s) =>
        s == transform.value &&
        forall i | 0 <= i < |Split(s)| :: !IsGenId(Split(s)[i])
      case ListTransforms => false
  {
    if transform == Some("list") {
      return ListTransforms;
    }
    var classes := ClassesForLevel(level);
    if transform.Some? && transform.value != "" {
      var names := Split(transform.value);
      classes := SelectClasses(names);
      if |classes| == 0 {
        RequestedEmpty(names);
        return NoSuchTransform(transform.value);
      }
    }
    c := Search(classes);
  }
}
