/** Filtering the DMA-BUF modifiers of a format in place (libobs-opengl/gl-egl-common.c:383-398). */
module DmaBuf {

  /** The entries whose flag is false, in order. */
  function Allowed(modifiers: seq<bv64>, externalOnly: seq<bool>): seq<bv64>
    requires |modifiers| == |externalOnly|
  {
    if modifiers == [] then []
    else
      var last := |modifiers| - 1;
      Allowed(modifiers[..last], externalOnly[..last]) + if externalOnly[last] then [] else [modifiers[last]]
  }

  /** An entry is left exactly when it was there with a false flag. */
  lemma {:induction false} AllowedExactly(modifiers: seq<bv64>, externalOnly: seq<bool>, m: bv64)
    requires |modifiers| == |externalOnly|
    ensures m in Allowed(modifiers, externalOnly) <==>
            exists i :: 0 <= i < |modifiers| && modifiers[i] == m && !externalOnly[i]
  {
    if modifiers != [] {
      var last := |modifiers| - 1;
      var ms, fs := modifiers[..last], externalOnly[..last];
      AllowedExactly(ms, fs, m);
      if m in Allowed(ms, fs) {
        var i :| 0 <= i < |ms| && ms[i] == m && !fs[i];
        assert modifiers[i] == m && !externalOnly[i];
      }
      if i :| 0 <= i < |modifiers| && modifiers[i] == m && !externalOnly[i] {
        assert i < last ==> ms[i] == m && !fs[i];
      }
    }
  }

  function Count(externalOnly: seq<bool>): (c: nat)
    ensures c <= |externalOnly|
  {
    if externalOnly == [] then 0
    else Count(externalOnly[..|externalOnly| - 1]) + if externalOnly[|externalOnly| - 1] then 0 else 1
  }

  lemma {:induction false} AllowedLength(modifiers: seq<bv64>, externalOnly: seq<bool>)
    requires |modifiers| == |externalOnly|
    ensures |Allowed(modifiers, externalOnly)| == Count(externalOnly)
  {
    if modifiers != [] {
      var last := |modifiers| - 1;
      AllowedLength(modifiers[..last], externalOnly[..last]);
    }
  }

  /** The loop: i runs over the flags, j over the entries kept, and every entry dropped shrinks the list and
      moves the rest down by one. */
  method Filter(modifierList: array<bv64>, externalOnly: seq<bool>, queried: nat) returns (maxModifiers: nat)
    requires queried <= modifierList.Length && queried <= |externalOnly|
    modifies modifierList
    ensures maxModifiers == Count(externalOnly[..queried]) <= queried
    ensures modifierList[..maxModifiers] == Allowed(old(modifierList[..queried]), externalOnly[..queried])
    ensures modifierList[queried..] == old(modifierList[queried..])
  {
    maxModifiers := queried;
    ghost var was, flags, tail := modifierList[..queried], externalOnly[..queried], modifierList[queried..];
    AllowedLength(was, flags);
    var i, j := 0, 0;
    hide Count;
    while j < maxModifiers
      invariant j <= i <= queried && maxModifiers - j == queried - i
      invariant modifierList[..j] == Allowed(was[..i], flags[..i])
      invariant modifierList[j..maxModifiers] == was[i..]
      invariant modifierList[queried..] == tail
      decreases maxModifiers - j
    {
      AllowedStep(was, flags, i);
      hide Allowed;
      assert modifierList[j + 1..maxModifiers] == was[i + 1..] by {
        assert modifierList[j..maxModifiers][1..] == modifierList[j + 1..maxModifiers];
      }
      if externalOnly[i] {
        maxModifiers := maxModifiers - 1;
        MoveDown(modifierList, j, maxModifiers - j, queried);
      } else {
        assert modifierList[j] == modifierList[j..maxModifiers][0];
        j := j + 1;
      }
      i := i + 1;
    }
    assert was[..i] == was && flags[..i] == flags;
  }

  /** memmove of count entries from at + 1 to at. */
  method MoveDown(a: array<bv64>, at: nat, count: nat, ghost beyond: nat)
    requires at + count < beyond <= a.Length
    modifies a
    ensures a[..at] == old(a[..at])
    ensures a[at..at + count] == old(a[at + 1..at + count + 1])
    ensures a[beyond..] == old(a[beyond..])
  {
    forall k | at <= k < at + count {
      a[k] := a[k + 1];
    }
  }

  lemma {:induction false} AllowedStep(modifiers: seq<bv64>, flags: seq<bool>, i: nat)
    requires |modifiers| == |flags| && i < |flags|
    ensures Allowed(modifiers[..i + 1], flags[..i + 1]) ==
            Allowed(modifiers[..i], flags[..i]) + if flags[i] then [] else [modifiers[i]]
  {
    assert modifiers[..i + 1][..i] == modifiers[..i] && flags[..i + 1][..i] == flags[..i];
  }
}
