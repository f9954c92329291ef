/** internal/modules: which display modules may be picked. */
module Modules {

  /** `only` (INCLUDE) is an allowlist when it is not empty; `never` (EXCLUDE) wins over it. */
  predicate Allowed(name: string, only: seq<string>, never: seq<string>) {
    (only != [] ==> name in only) && name !in never
  }

  /** The modules the filters leave, in the order they were discovered. */
  function Selection(discovered: seq<string>, only: seq<string>, never: seq<string>): seq<string> {
    if discovered == [] then []
    else
      var rest := Selection(discovered[..|discovered| - 1], only, never);
      var last := discovered[|discovered| - 1];
      if Allowed(last, only, never) then rest + [last] else rest
  }

  method ToSet(names: seq<string>) returns (s: set<string>)
    ensures forall n :: n in s <==> n in names
  {
    s := {};
    for i := 0 to |names|
      invariant forall n :: n in s <==> n in names[..i]
    {
      s := s + {names[i]};
    }
    assert names[..|names|] == names;
  }

  method Select(discovered: seq<string>, only: seq<string>, never: seq<string>) returns (out: seq<string>)
    ensures out == Selection(discovered, only, never)
  {
    var allow := ToSet(only);
    var deny := ToSet(never);
    assert only != [] ==> only[0] in allow;
    out := [];
    for i := 0 to |discovered|
      invariant out == Selection(discovered[..i], only, never)
    {
      var name := discovered[i];
      assert discovered[..i + 1][..i] == discovered[..i];
      if allow != {} && name !in allow {
        continue;
      }
      if name in deny {
        continue;
      }
      out := out + [name];
    }
    assert discovered[..|discovered|] == discovered;
  }

  /** A name is selected exactly when it was discovered and the filters allow
      it: the selection neither invents a module nor loses one. */
  lemma {:induction false} SelectionMembers(discovered: seq<string>, only: seq<string>, never: seq<string>, name: string)
    ensures name in Selection(discovered, only, never) <==>
      name in discovered && (only != [] ==> name in only) && name !in never
  {
    if discovered != [] {
      var init := discovered[..|discovered| - 1];
      SelectionMembers(init, only, never, name);
      assert discovered == init + [discovered[|discovered| - 1]];
    }
  }

  /** The order in which they were discovered is kept. */
  lemma {:induction false} SelectionOrder(before: seq<string>, after: seq<string>, only: seq<string>, never: seq<string>)
    ensures Selection(before + after, only, never) == Selection(before, only, never) + Selection(after, only, never)
  {
    if after == [] {
      assert before + after == before;
    } else {
      var init := after[..|after| - 1];
      assert (before + after)[..|before + after| - 1] == before + init;
      SelectionOrder(before, init, only, never);
    }
  }

  /** Adding names to EXCLUDE filters the selection further and changes nothing
      else: this is how the daemon's avoid list reaches the picker. */
  lemma {:induction false} AvoidingFiltersTheSelection(discovered: seq<string>, only: seq<string>,
                          never: seq<string>, avoid: seq<string>)
    ensures Selection(discovered, only, never + avoid) == Selection(Selection(discovered, only, never), [], avoid)
  {
    if discovered != [] {
      var init := discovered[..|discovered| - 1];
      var last := discovered[|discovered| - 1];
      AvoidingFiltersTheSelection(init, only, never, avoid);
      if Allowed(last, only, never) {
        var rest := Selection(init, only, never);
        assert (rest + [last])[..|rest|] == rest;
      }
    }
  }
}
