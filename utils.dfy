/** The sequence and flag-array helpers of the Blender scripting utilities:
    forwarding the arguments given after "--", moving an object to one layer,
    selecting the one object to delete, and naming a newly added object. */
module Utils {

  import Flags
  import Decimal

  // ----------------------------------------------------------------------
  // Argument forwarding
  // ----------------------------------------------------------------------

  /** Blender stops reading its own flags at this token. */
  const SEPARATOR: string := "--"

  /** Python's list.index: the position of the first occurrence of x in s. */
  function IndexOf(s: seq<string>, x: string): (i: nat)
    requires x in s
    ensures i < |s| && s[i] == x && x !in s[..i]
  {
    if s[0] == x then 0
    else
      assert s == [s[0]] + s[1..];
      1 + IndexOf(s[1..], x)
  }

  /** The arguments that follow the first "--", or none when there is no "--".
      The result is always a suffix of argv. */
  function ExtractArgs(argv: seq<string>): (r: seq<string>)
    ensures |r| <= |argv| && r == argv[|argv| - |r|..]
    ensures SEPARATOR !in argv ==> r == []
    ensures SEPARATOR in argv ==>
              |r| < |argv| &&
              argv[|argv| - |r| - 1] == SEPARATOR &&
              SEPARATOR !in argv[..|argv| - |r| - 1]
  {
    if SEPARATOR in argv then argv[IndexOf(argv, SEPARATOR) + 1..] else []
  }

  /** Whatever follows the first "--" is forwarded unchanged, including any
      later "--" tokens. */
  lemma ExtractArgsForwards(launcher: seq<string>, script: seq<string>)
    requires SEPARATOR !in launcher
    ensures ExtractArgs(launcher + [SEPARATOR] + script) == script
  {
    var argv := launcher + [SEPARATOR] + script;
    var r := ExtractArgs(argv);
    var idx := |argv| - |r| - 1;
    assert argv[|launcher|] == SEPARATOR;
    assert idx == |launcher|;
  }

  /** When "--" occurs, the result determines how argv splits around its
      first "--". */
  lemma ExtractArgsSplits(argv: seq<string>)
    requires SEPARATOR in argv
    ensures argv == argv[..|argv| - |ExtractArgs(argv)| - 1] + [SEPARATOR] + ExtractArgs(argv)
  {
  }

  // ----------------------------------------------------------------------
  // Layer assignment (set_layer)
  // ----------------------------------------------------------------------

  /** The layer flags after the loop of set_layer has run its first i
      iterations, starting from s: positions below i hold (j == k), the others
      are as in s. */
  function AfterIterations(s: seq<bool>, k: nat, i: nat): (r: seq<bool>)
    requires i <= |s|
    ensures |r| == |s|
    ensures i == 0 ==> r == s
    ensures r[i..] == s[i..]
    ensures forall j :: 0 <= j < i ==> r[j] == (j == k)
    ensures i == |s| && k < |s| ==> r == Flags.OnlyAt(|s|, k)
  {
    seq(|s|, j requires 0 <= j < |s| => if j < i then j == k else s[j])
  }

  /** Setting the target layer before the loop keeps the object on a layer in
      every intermediate state of the loop. */
  lemma {:induction false} PreWriteKeepsLayer(s: seq<bool>, k: nat, i: nat)
    requires k < |s| && i <= |s|
    ensures AfterIterations(s[k := true], k, i)[k]
    ensures Flags.CountSet(AfterIterations(s[k := true], k, i)) >= 1
  {
    var t := AfterIterations(s[k := true], k, i);
    assert t[k];
    Flags.CountSetZero(t);
  }

  /** Without the write before the loop, an object that sits only on a lower
      layer j loses every layer after iteration j. */
  lemma {:induction false} NoPreWriteLosesLayer(n: nat, j: nat, k: nat)
    requires j < k < n
    ensures Flags.CountSet(AfterIterations(Flags.OnlyAt(n, j), k, j + 1)) == 0
  {
    var t := AfterIterations(Flags.OnlyAt(n, j), k, j + 1);
    forall x | 0 <= x < n
      ensures !t[x]
    {
    }
    Flags.CountSetZero(t);
  }

  /** Moves an object to exactly the layer layerIdx. */
  method SetLayer(layers: array<bool>, layerIdx: nat)
    requires layerIdx < layers.Length
    modifies layers
    ensures layers[..] == Flags.OnlyAt(layers.Length, layerIdx)
  {
    // Set the target layer first, so that the object is on at least one
    // layer at every step.
    layers[layerIdx] := true;
    ghost var start := old(layers[..])[layerIdx := true];
    assert layers[..] == AfterIterations(start, layerIdx, 0);
    PreWriteKeepsLayer(old(layers[..]), layerIdx, 0);
    var i := 0;
    while i < layers.Length
      invariant 0 <= i <= layers.Length
      invariant layers[..] == AfterIterations(start, layerIdx, i)
      invariant layers[layerIdx] && Flags.CountSet(layers[..]) >= 1
    {
      layers[i] := i == layerIdx;
      i := i + 1;
      assert layers[..] == AfterIterations(start, layerIdx, i);
      PreWriteKeepsLayer(old(layers[..]), layerIdx, i);
    }
    assert layers[..] == Flags.OnlyAt(layers.Length, layerIdx);
  }

  // ----------------------------------------------------------------------
  // The selection step of delete_object
  // ----------------------------------------------------------------------

  /** Clears the selection flag of every object, then selects the target, so
      that exactly the target is selected when the delete operator runs. */
  method SelectOnly(selected: array<bool>, target: nat)
    requires target < selected.Length
    modifies selected
    ensures selected[..] == Flags.OnlyAt(selected.Length, target)
    ensures Flags.CountSet(selected[..]) == 1
  {
    var i := 0;
    while i < selected.Length
      invariant 0 <= i <= selected.Length
      invariant forall j :: 0 <= j < i ==> !selected[j]
    {
      selected[i] := false;
      i := i + 1;
    }
    selected[target] := true;
    assert selected[..] == Flags.OnlyAt(selected.Length, target);
    Flags.CountSetOnlyAt(selected.Length, target);
  }

  // ----------------------------------------------------------------------
  // Naming a new object (add_object)
  // ----------------------------------------------------------------------

  /** Python's str.startswith, as Dafny's prefix test: s is at least as long
      as prefix and begins with it. */
  predicate StartsWith(s: string, prefix: string)
    ensures StartsWith(s, prefix) <==> |prefix| <= |s| && s[..|prefix|] == prefix
  {
    prefix <= s
  }

  /** The number of names in objects that start with name. */
  function PrefixCount(objects: seq<string>, name: string): (r: nat)
    ensures r <= |objects|
  {
    if objects == [] then 0
    else
      PrefixCount(objects[..|objects| - 1], name)
      + (if StartsWith(objects[|objects| - 1], name) then 1 else 0)
  }

  /** The name computed for the new copy of name: name, "_", then at least
      one digit. */
  function NewName(objects: seq<string>, name: string): (r: string)
    ensures |r| >= |name| + 2
    ensures StartsWith(r, name) && r[|name|] == '_'
    ensures forall i :: |name| < i < |r| ==> Decimal.IsDigit(r[i])
  {
    name + "_" + Decimal.FromNat(PrefixCount(objects, name))
  }

  /** Counts the existing objects whose name starts with name and forms the
      name of the new object from that count. */
  method AddObjectName(objects: seq<string>, name: string) returns (count: nat, newName: string)
    ensures count == PrefixCount(objects, name) && count <= |objects|
    ensures newName == NewName(objects, name)
  {
    count := 0;
    var i := 0;
    while i < |objects|
      invariant 0 <= i <= |objects|
      invariant count == PrefixCount(objects[..i], name)
    {
      assert objects[..i + 1][..i] == objects[..i];
      if StartsWith(objects[i], name) {
        count := count + 1;
      }
      i := i + 1;
    }
    assert objects[..i] == objects;
    newName := name + "_" + Decimal.FromNat(count);
  }

  /** The count is zero exactly when no existing name starts with name. */
  lemma {:induction false} PrefixCountZero(objects: seq<string>, name: string)
    ensures PrefixCount(objects, name) == 0 <==> forall o :: o in objects ==> !StartsWith(o, name)
  {
    if objects != [] {
      var init := objects[..|objects| - 1];
      PrefixCountZero(init, name);
      assert forall o :: o in objects <==> o in init || o == objects[|objects| - 1];
    }
  }

  /** The count reaches |objects| exactly when every existing name starts
      with name. */
  lemma {:induction false} PrefixCountAll(objects: seq<string>, name: string)
    ensures PrefixCount(objects, name) == |objects| <==> forall o :: o in objects ==> StartsWith(o, name)
  {
    if objects != [] {
      var init := objects[..|objects| - 1];
      PrefixCountAll(init, name);
      assert forall o :: o in objects <==> o in init || o == objects[|objects| - 1];
    }
  }

  /** Counting over two lists of objects adds up. */
  lemma {:induction false} PrefixCountAppend(a: seq<string>, b: seq<string>, name: string)
    ensures PrefixCount(a + b, name) == PrefixCount(a, name) + PrefixCount(b, name)
  {
    if b == [] {
      assert a + b == a;
    } else {
      var init := b[..|b| - 1];
      PrefixCountAppend(a, init, name);
      assert (a + b)[..|a + b| - 1] == a + init;
    }
  }

  /** The count does not depend on the order in which the objects are listed. */
  lemma {:induction false} PrefixCountPermutation(a: seq<string>, b: seq<string>, name: string)
    requires multiset(a) == multiset(b)
    ensures PrefixCount(a, name) == PrefixCount(b, name)
  {
    if a == [] {
      assert |b| == |multiset(b)| == 0;
    } else {
      var x := a[|a| - 1];
      var init := a[..|a| - 1];
      assert a == init + [x];
      assert x in multiset(b);
      var j :| 0 <= j < |b| && b[j] == x;
      var rest := b[..j] + b[j + 1..];
      assert b == b[..j] + [x] + b[j + 1..];
      assert multiset(a) == multiset(init) + multiset{x};
      assert multiset(b) == multiset(b[..j]) + multiset{x} + multiset(b[j + 1..]);
      assert multiset(rest) == multiset(b[..j]) + multiset(b[j + 1..]);
      assert multiset(init) == multiset(a) - multiset{x};
      assert multiset(rest) == multiset(b) - multiset{x};
      PrefixCountPermutation(init, rest, name);
      PrefixCountAppend(b[..j], [x], name);
      PrefixCountAppend(b[..j] + [x], b[j + 1..], name);
      PrefixCountAppend(b[..j], b[j + 1..], name);
      assert [x][..0] == [];
    }
  }

  /** The new name is name, then "_", then a decimal number that reads back
      as the count. */
  lemma NewNameParts(objects: seq<string>, name: string)
    ensures StartsWith(NewName(objects, name), name)
    ensures NewName(objects, name)[|name|] == '_'
    ensures Decimal.ToNat(NewName(objects, name)[|name| + 1..]) == Decimal.Some(PrefixCount(objects, name))
  {
    var digits := Decimal.FromNat(PrefixCount(objects, name));
    assert NewName(objects, name)[|name| + 1..] == digits;
    Decimal.ToNatFromNat(PrefixCount(objects, name));
  }

  /** Two scenes give the same new name for name exactly when they give the
      same count. */
  lemma NewNameDeterminesCount(a: seq<string>, b: seq<string>, name: string)
    ensures NewName(a, name) == NewName(b, name) <==> PrefixCount(a, name) == PrefixCount(b, name)
  {
    if NewName(a, name) == NewName(b, name) {
      NewNameParts(a, name);
      NewNameParts(b, name);
    }
  }

  /** The computed new name need not be fresh: if "Cube_0" was deleted and
      "Cube_1" remains, the name computed for the next cube is "Cube_1", the
      name of an object that already exists. */
  lemma NewNameMayCollide()
    ensures NewName(["Cube_1"], "Cube") == "Cube_1"
  {
  }
}
