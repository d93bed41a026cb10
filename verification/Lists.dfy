/** Lists without duplicates. */
module Lists {

  ghost predicate Distinct<T>(s: seq<T>) {
    forall i, j :: 0 <= i < j < |s| ==> s[i] != s[j]
  }

  /** Taking one element out leaves no other of its value behind. */
  lemma {:induction false} DropDistinct<T>(s: seq<T>, i: nat)
    requires i < |s| && Distinct(s)
    ensures Distinct(s[..i] + s[i + 1..]) && s[i] !in s[..i] + s[i + 1..]
  {
    var less := s[..i] + s[i + 1..];
    forall j, k | 0 <= j < k < |less|
      ensures less[j] != less[k]
    {
      assert less[j] == s[if j < i then j else j + 1];
      assert less[k] == s[if k < i then k else k + 1];
    }
  }
}
