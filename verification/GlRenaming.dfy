/** The final renaming of attribute variables, exactly when it gives every variable its own name, and what it
    means for linking the stages (libobs-opengl/gl-shaderparser.c:696-718). */
module GlRenaming {
  import opened GlStorage
  import opened GlStream
  import opened Decimals
  import opened Options
  import opened Stages

  // ---- renaming ----

  predicate Occurs(f: string, s: string) {
    f <= s || (s != "" && Occurs(f, s[1..]))
  }

  /** dstr_replace on one identifier: leftmost occurrences, not rescanned. */
  function Replace(s: string, f: string, r: string): string
    requires f != ""
    decreases |s|
  {
    if s == "" then ""
    else if f <= s then r + Replace(s[|f|..], f, r)
    else [s[0]] + Replace(s[1..], f, r)
  }

  lemma {:induction false} ReplaceAbsent(s: string, f: string, r: string)
    requires f != "" && !Occurs(f, s)
    ensures Replace(s, f, r) == s
  {
    if s != "" {
      ReplaceAbsent(s[1..], f, r);
    }
  }

  datatype Prefixes = Prefixes(input: string, output: string)

  /** gl_shader_parser_init. */
  function PrefixesOf(stage: Stage): Prefixes {
    match stage
    case VertexStage => Prefixes("_input_attrib", "_vertex_shader_attrib")
    case PixelStage => Prefixes("_vertex_shader_attrib", "_pixel_shader_attrib")
  }

  function CountOf(attribs: seq<Attrib>, input: bool): (n: nat)
    ensures n <= |attribs|
  {
    if attribs == [] then 0
    else CountOf(attribs[..|attribs| - 1], input) + (if attribs[|attribs| - 1].input == input then 1 else 0)
  }

  /** The new name of attribute i: its side's prefix and its number on that side. */
  function NewName(stage: Stage, attribs: seq<Attrib>, i: nat): string
    requires i < |attribs|
  {
    var a := attribs[i];
    (if a.input then PrefixesOf(stage).input else PrefixesOf(stage).output) + Digits(CountOf(attribs[..i], a.input))
  }

  /** An identifier of the shader text after the first n attributes have been renamed. */
  function Renamed(stage: Stage, attribs: seq<Attrib>, n: nat, word: string): string
    requires n <= |attribs| && forall i :: 0 <= i < n ==> attribs[i].name != ""
  {
    if n == 0 then word
    else Replace(Renamed(stage, attribs, n - 1, word), attribs[n - 1].name, NewName(stage, attribs, n - 1))
  }

  /** gl_rename_attributes over the identifiers of the shader text. Names are identifiers and the
      text separates identifiers, so a replacement never crosses from one into the next. */
  method RenameAttributes(stage: Stage, attribs: seq<Attrib>, text: seq<string>) returns (names: seq<string>,
                                                                                          result: seq<string>)
    requires forall i :: 0 <= i < |attribs| ==> attribs[i].name != ""
    ensures |names| == |attribs| && |result| == |text|
    ensures forall i :: 0 <= i < |attribs| ==> names[i] == NewName(stage, attribs, i)
    ensures forall j :: 0 <= j < |text| ==> result[j] == Renamed(stage, attribs, |attribs|, text[j])
  {
    names, result := [], text;
    var inputIdx, outputIdx := 0, 0;
    for i := 0 to |attribs|
      invariant inputIdx == CountOf(attribs[..i], true) && outputIdx == CountOf(attribs[..i], false)
      invariant |names| == i && |result| == |text|
      invariant forall k :: 0 <= k < i ==> names[k] == NewName(stage, attribs, k)
      invariant forall j :: 0 <= j < |text| ==> result[j] == Renamed(stage, attribs, i, text[j])
    {
      var attrib := attribs[i];
      var prefix, val;
      if attrib.input {
        prefix, val := PrefixesOf(stage).input, inputIdx;
        inputIdx := inputIdx + 1;
      } else {
        prefix, val := PrefixesOf(stage).output, outputIdx;
        outputIdx := outputIdx + 1;
      }
      var newName := prefix + Digits(val);
      result := ReplaceAll(result, attrib.name, newName);
      names := names + [newName];
      assert attribs[..i + 1][..i] == attribs[..i];
    }
  }

  method ReplaceAll(text: seq<string>, f: string, r: string) returns (result: seq<string>)
    requires f != ""
    ensures |result| == |text| && forall j :: 0 <= j < |text| ==> result[j] == Replace(text[j], f, r)
  {
    result := [];
    for j := 0 to |text|
      invariant |result| == j && forall k :: 0 <= k < j ==> result[k] == Replace(text[k], f, r)
    {
      result := result + [Replace(text[j], f, r)];
    }
  }

  /** The names the flattening makes. */
  predicate FlattenedName(name: string) {
    INPUT_PREFIX <= name || "outputval" <= name
  }

  predicate Flattened(attribs: seq<Attrib>) {
    forall i :: 0 <= i < |attribs| ==> FlattenedName(attribs[i].name)
  }

  predicate HasChar(s: string, c: char) {
    exists i :: 0 <= i < |s| && s[i] == c
  }

  lemma {:induction false} OccursChars(f: string, s: string, c: char)
    requires Occurs(f, s) && HasChar(f, c)
    ensures HasChar(s, c)
  {
    if f <= s {
      var i :| 0 <= i < |f| && f[i] == c;
      assert s[i] == c;
    } else {
      OccursChars(f, s[1..], c);
      var i :| 0 <= i < |s[1..]| && s[1..][i] == c;
      assert s[i + 1] == c;
    }
  }

  /** Flattened names contain both letters; each new name lacks one of them. */
  lemma {:induction false} FlattenedLetters(name: string)
    requires FlattenedName(name)
    ensures HasChar(name, 'v') && HasChar(name, 'l') && name != ""
  {
    if INPUT_PREFIX <= name {
      assert name[5] == INPUT_PREFIX[5] == 'v';
      assert name[7] == INPUT_PREFIX[7] == 'l';
    } else {
      var o := "outputval";
      assert name[6] == o[6] == 'v';
      assert name[8] == o[8] == 'l';
    }
  }

  lemma {:induction false} NoCharConcat(a: string, b: string, c: char)
    requires NoChar(a, c) && NoChar(b, c)
    ensures NoChar(a + b, c)
  {
  }

  lemma {:induction false} DigitsNoChar(n: nat, c: char)
    requires c < '0' || '9' < c
    ensures NoChar(Digits(n), c)
  {
  }

  lemma {:induction false} PrefixLetters()
    ensures NoChar("_input_attrib", 'l') && NoChar("_vertex_shader_attrib", 'l') && NoChar("_pixel_shader_attrib", 'v')
  {
  }

  lemma {:induction false} NewLetters(stage: Stage, attribs: seq<Attrib>, i: nat)
    requires i < |attribs|
    ensures NoChar(NewName(stage, attribs, i), 'v') || NoChar(NewName(stage, attribs, i), 'l')
    ensures stage.VertexStage? ==> NoChar(NewName(stage, attribs, i), 'l')
  {
    PrefixLetters();
    hide NoChar, Digits;
    var n := CountOf(attribs[..i], attribs[i].input);
    DigitsNoChar(n, 'v');
    DigitsNoChar(n, 'l');
    var p := if attribs[i].input then PrefixesOf(stage).input else PrefixesOf(stage).output;
    if p == "_pixel_shader_attrib" {
      NoCharConcat(p, Digits(n), 'v');
    } else {
      NoCharConcat(p, Digits(n), 'l');
    }
  }

  lemma {:induction false} NewNameClear(stage: Stage, attribs: seq<Attrib>, i: nat, name: string)
    requires i < |attribs| && FlattenedName(name)
    ensures !Occurs(name, NewName(stage, attribs, i))
  {
    hide NewName, FlattenedName;
    FlattenedLetters(name);
    NewLetters(stage, attribs, i);
    if Occurs(name, NewName(stage, attribs, i)) {
      OccursChars(name, NewName(stage, attribs, i), 'v');
      OccursChars(name, NewName(stage, attribs, i), 'l');
    }
  }

  // ---- when an attribute ends under its own name ----

  /** Replacing takes the leftmost occurrence. */
  lemma {:induction false} ReplaceFirst(u: string, f: string, r: string) returns (a: string, z: string)
    requires f != "" && Occurs(f, u)
    ensures u == a + f + z && Replace(u, f, r) == a + r + Replace(z, f, r)
    decreases |u|
  {
    if f <= u {
      a, z := "", u[|f|..];
      hide Replace, Occurs;
      ReplaceAhead(u, f, r);
      assert "" + f + z == u && "" + r + Replace(z, f, r) == r + Replace(z, f, r);
    } else {
      var b, y := ReplaceFirst(u[1..], f, r);
      a, z := [u[0]] + b, y;
      hide Replace, Occurs;
      ReplaceLater(u, f, r);
      Behind(u[0], b, f, y);
      Behind(u[0], b, r, Replace(y, f, r));
      assert u == [u[0]] + u[1..];
    }
  }

  lemma {:induction false} ReplaceAhead(u: string, f: string, r: string)
    requires f != "" && f <= u
    ensures Replace(u, f, r) == r + Replace(u[|f|..], f, r)
  {
  }

  lemma {:induction false} ReplaceLater(u: string, f: string, r: string)
    requires f != "" && u != "" && !(f <= u)
    ensures Replace(u, f, r) == [u[0]] + Replace(u[1..], f, r)
  {
  }

  lemma {:induction false} Behind(c: char, a: string, b: string, d: string)
    ensures [c] + (a + b + d) == [c] + a + b + d
  {
  }

  function PrefixFor(stage: Stage, input: bool): string {
    if input then PrefixesOf(stage).input else PrefixesOf(stage).output
  }

  /** Every new name is a prefix that ends in its only b, and a number. */
  lemma {:induction false} NewNameShape(stage: Stage, attribs: seq<Attrib>, i: nat)
    requires i < |attribs|
    ensures var p := PrefixFor(stage, attribs[i].input);
            NewName(stage, attribs, i) == p + Digits(CountOf(attribs[..i], attribs[i].input))
    ensures NoChar(Digits(CountOf(attribs[..i], attribs[i].input)), 'b')
  {
    DigitsNoChar(CountOf(attribs[..i], attribs[i].input), 'b');
  }

  lemma {:induction false} PrefixShape(stage: Stage, input: bool)
    ensures var p := PrefixFor(stage, input); |p| > 0 && p[|p| - 1] == 'b' && NoChar(p[..|p| - 1], 'b')
  {
  }

  /** Neither prefix of a stage ends in the other. */
  lemma {:induction false} PrefixesApart(stage: Stage, x: bool, y: bool, i: nat)
    requires i <= |PrefixFor(stage, x)| && PrefixFor(stage, x)[i..] == PrefixFor(stage, y)
    ensures i == 0 && PrefixFor(stage, x) == PrefixFor(stage, y)
  {
  }

  /** One replacement can only produce a new name from the old one with the rest of the number behind it. */
  lemma {:induction false} LastReplacement(stage: Stage, x: bool, d: string, y: bool, e: string, u: string, f: string)
    requires NoChar(d, 'b') && NoChar(e, 'b') && f != "" && Occurs(f, u)
    requires Replace(u, f, PrefixFor(stage, x) + d) == PrefixFor(stage, y) + e
    ensures f <= u && PrefixFor(stage, x) + d + u[|f|..] == PrefixFor(stage, y) + e
  {
    hide Replace, Occurs, PrefixFor, NoChar;
    var p, q := PrefixFor(stage, x), PrefixFor(stage, y);
    var a, z := ReplaceFirst(u, f, p + d);
    var t := Replace(z, f, p + d);
    PrefixShape(stage, x);
    PrefixShape(stage, y);
    OneB(p, d, a, t, q, e);
    PrefixesApart(stage, y, x, |a|);
    assert a == "" && u == f + z && u[|f|..] == z;
    RestWithoutB(p, d, t, e);
    if Occurs(f, z) {
      var b, c := ReplaceFirst(z, f, p + d);
      BInside(p, d, b, Replace(c, f, p + d));
    } else {
      ReplaceAbsent(z, f, p + d);
    }
  }

  /** Where the one b of both sides is. */
  lemma {:induction false} OneB(p: string, d: string, a: string, t: string, q: string, e: string)
    requires |p| > 0 && p[|p| - 1] == 'b' && |q| > 0 && q[|q| - 1] == 'b' && NoChar(q[..|q| - 1], 'b') && NoChar(e, 'b')
    requires a + (p + d) + t == q + e
    ensures |a| + |p| == |q| && q[|a|..] == p && q[..|a|] == a
  {
    OnlyB(q, e);
    var w := q + e;
    assert w[|a| + |p| - 1] == p[|p| - 1];
    assert w[..|a| + |p|] == a + p;
    assert w[..|q|] == q;
  }

  lemma {:induction false} RestWithoutB(p: string, d: string, t: string, e: string)
    requires p + d + t == p + e && NoChar(e, 'b')
    ensures NoChar(t, 'b')
  {
    assert (p + d + t)[|p|..] == d + t && (p + e)[|p|..] == e;
    forall i | 0 <= i < |t|
      ensures t[i] != 'b'
    {
      assert (d + t)[|d| + i] == t[i];
    }
  }

  lemma {:induction false} BInside(p: string, d: string, b: string, v: string)
    requires |p| > 0 && p[|p| - 1] == 'b'
    ensures !NoChar(b + (p + d) + v, 'b')
  {
    assert (b + (p + d) + v)[|b| + |p| - 1] == 'b';
  }

  lemma {:induction false} OnlyB(q: string, e: string)
    requires |q| > 0 && q[|q| - 1] == 'b' && NoChar(q[..|q| - 1], 'b') && NoChar(e, 'b')
    ensures forall i :: 0 <= i < |q + e| && (q + e)[i] == 'b' ==> i == |q| - 1
  {
    forall i | 0 <= i < |q + e|
      ensures (q + e)[i] == 'b' ==> i == |q| - 1
    {
      if i < |q| - 1 {
        assert (q + e)[i] == q[..|q| - 1][i];
      } else if i >= |q| {
        assert (q + e)[i] == e[i - |q|];
      }
    }
  }

  /** Attribute j's name begins the word that it meets, and its number with the rest of that word reads as k's. */
  predicate Completes(stage: Stage, attribs: seq<Attrib>, k: nat, j: nat, word: string)
    requires k < |attribs| && j < |attribs|
  {
    attribs[j].name <= word && NewName(stage, attribs, j) + word[|attribs[j].name|..] == NewName(stage, attribs, k)
  }

  predicate Named(attribs: seq<Attrib>) {
    forall i :: 0 <= i < |attribs| ==> attribs[i].name != ""
  }

  lemma {:induction false} FlattenedNamed(attribs: seq<Attrib>)
    requires Flattened(attribs)
    ensures Named(attribs)
  {
    forall i | 0 <= i < |attribs|
      ensures attribs[i].name != ""
    {
      FlattenedLetters(attribs[i].name);
    }
  }

  /** Whatever comes after, such a replacement settles the name. */
  lemma {:induction false} CompletedStays(stage: Stage, attribs: seq<Attrib>, k: nat, j: nat, n: nat)
    requires j < n <= |attribs| && k < |attribs| && Flattened(attribs) && Named(attribs)
    requires Completes(stage, attribs, k, j, Renamed(stage, attribs, j, attribs[k].name))
    ensures Renamed(stage, attribs, n, attribs[k].name) == NewName(stage, attribs, k)
    decreases n
  {
    hide NewName, Replace, FlattenedName, Occurs;
    var f, w := attribs[n - 1].name, NewName(stage, attribs, k);
    assert FlattenedName(f);
    if n - 1 > j {
      CompletedStays(stage, attribs, k, j, n - 1);
      NewNameClear(stage, attribs, k, f);
      ReplaceAbsent(w, f, NewName(stage, attribs, n - 1));
    } else {
      var u := Renamed(stage, attribs, j, attribs[k].name);
      var z := u[|f|..];
      NewNameRest(stage, attribs, k, f, NewName(stage, attribs, j), z);
      ReplaceAbsent(z, f, NewName(stage, attribs, j));
      ReplaceAhead(u, f, NewName(stage, attribs, j));
    }
  }

  lemma {:induction false} NewNameRest(stage: Stage, attribs: seq<Attrib>, k: nat, f: string, a: string, z: string)
    requires k < |attribs| && FlattenedName(f) && NewName(stage, attribs, k) == a + z
    ensures !Occurs(f, z)
  {
    hide NewName, FlattenedName;
    FlattenedLetters(f);
    NewLetters(stage, attribs, k);
    if Occurs(f, z) {
      OccursChars(f, z, 'v');
      OccursChars(f, z, 'l');
      HasCharBehind(a, z, 'v');
      HasCharBehind(a, z, 'l');
    }
  }

  lemma {:induction false} HasCharBehind(a: string, z: string, c: char)
    requires HasChar(z, c)
    ensures HasChar(a + z, c) && !NoChar(a + z, c)
  {
    var i :| 0 <= i < |z| && z[i] == c;
    assert (a + z)[|a| + i] == c;
  }

  lemma {:induction false} NotNewYet(stage: Stage, attribs: seq<Attrib>, k: nat)
    requires k < |attribs| && Flattened(attribs)
    ensures attribs[k].name != NewName(stage, attribs, k)
  {
    hide NewName, FlattenedName;
    FlattenedLetters(attribs[k].name);
    NewLetters(stage, attribs, k);
  }

  lemma {:induction false} RenamedNext(stage: Stage, attribs: seq<Attrib>, n: nat, word: string)
    requires n < |attribs| && Named(attribs)
    ensures Renamed(stage, attribs, n + 1, word)
         == Replace(Renamed(stage, attribs, n, word), attribs[n].name, NewName(stage, attribs, n))
  {
  }

  lemma {:induction false} CompletedNow(stage: Stage, attribs: seq<Attrib>, k: nat, j: nat, u: string)
    requires k < |attribs| && j < |attribs| && Named(attribs) && Occurs(attribs[j].name, u)
    requires Replace(u, attribs[j].name, NewName(stage, attribs, j)) == NewName(stage, attribs, k)
    ensures Completes(stage, attribs, k, j, u)
  {
    hide NewName, Replace, Occurs, Digits;
    NewNameShape(stage, attribs, j);
    NewNameShape(stage, attribs, k);
    LastReplacement(stage, attribs[j].input, Digits(CountOf(attribs[..j], attribs[j].input)),
                    attribs[k].input, Digits(CountOf(attribs[..k], attribs[k].input)), u, attribs[j].name);
  }

  /** If an attribute ends under its own name, one of the replacements completed it. */
  lemma {:induction false} CompletedOnce(stage: Stage, attribs: seq<Attrib>, k: nat, n: nat) returns (j: nat)
    requires k < |attribs| && n <= |attribs| && Flattened(attribs) && Named(attribs)
    requires Renamed(stage, attribs, n, attribs[k].name) == NewName(stage, attribs, k)
    ensures j < n && Completes(stage, attribs, k, j, Renamed(stage, attribs, j, attribs[k].name))
    decreases n
  {
    NotNewYet(stage, attribs, k);
    hide NewName, Replace, FlattenedName, Occurs, Completes;
    var u := Renamed(stage, attribs, n - 1, attribs[k].name);
    var f := attribs[n - 1].name;
    if Occurs(f, u) {
      RenamedNext(stage, attribs, n - 1, attribs[k].name);
      CompletedNow(stage, attribs, k, n - 1, u);
      j := n - 1;
    } else {
      ReplaceAbsent(u, f, NewName(stage, attribs, n - 1));
      j := CompletedOnce(stage, attribs, k, n - 1);
    }
  }

  /** Exact theorem, for any attributes of any stage: attribute k ends under its own name if and only if some
      replacement completes the word it meets. */
  lemma {:induction false} RenamedIff(stage: Stage, attribs: seq<Attrib>, k: nat)
    requires k < |attribs| && Flattened(attribs)
    ensures Named(attribs)
    ensures Renamed(stage, attribs, |attribs|, attribs[k].name) == NewName(stage, attribs, k)
            <==> exists j ::
                   0 <= j < |attribs| && Completes(stage, attribs, k, j, Renamed(stage, attribs, j, attribs[k].name))
  {
    hide NewName, Replace, Completes, Renamed;
    FlattenedNamed(attribs);
    if Renamed(stage, attribs, |attribs|, attribs[k].name) == NewName(stage, attribs, k) {
      var j := CompletedOnce(stage, attribs, k, |attribs|);
    }
    if j :| 0 <= j < |attribs| && Completes(stage, attribs, k, j, Renamed(stage, attribs, j, attribs[k].name)) {
      CompletedStays(stage, attribs, k, j, |attribs|);
    }
  }

  // In terms of the names alone.

  /** No name before attribute j's occurs in attribute k's, and j's begins it and completes it: either j is k, or
      j's number and what follows j's name in k's happen to read as k's number. */
  predicate KeptBy(stage: Stage, attribs: seq<Attrib>, k: nat, j: nat)
    requires k < |attribs| && j < |attribs|
  {
    (forall i :: 0 <= i < j ==> !Occurs(attribs[i].name, attribs[k].name)) &&
      Completes(stage, attribs, k, j, attribs[k].name)
  }

  ghost predicate Kept(stage: Stage, attribs: seq<Attrib>, k: nat)
    requires k < |attribs|
  {
    exists j :: 0 <= j <= k && KeptBy(stage, attribs, k, j)
  }

  /** What the condition says: no earlier name occurs in attribute k's, or the first that does begins it and the
      rest completes its number. */
  lemma {:induction false} KeptMeans(stage: Stage, attribs: seq<Attrib>, k: nat)
    requires k < |attribs|
    ensures Kept(stage, attribs, k)
            <==> (forall i :: 0 <= i < k ==> !Occurs(attribs[i].name, attribs[k].name))
                 || exists j :: 0 <= j < k && KeptBy(stage, attribs, k, j)
    ensures forall j :: 0 <= j < k && KeptBy(stage, attribs, k, j) ==>
              && PrefixFor(stage, attribs[j].input) == PrefixFor(stage, attribs[k].input)
              && Digits(CountOf(attribs[..j], attribs[j].input)) + attribs[k].name[|attribs[j].name|..]
                 == Digits(CountOf(attribs[..k], attribs[k].input))
  {
    hide NewName, Occurs, Digits;
    if forall i :: 0 <= i < k ==> !Occurs(attribs[i].name, attribs[k].name) {
      assert attribs[k].name[|attribs[k].name|..] == "" &&
             NewName(stage, attribs, k) + "" == NewName(stage, attribs, k);
      assert KeptBy(stage, attribs, k, k);
    }
    forall j | 0 <= j < k && KeptBy(stage, attribs, k, j)
      ensures PrefixFor(stage, attribs[j].input) == PrefixFor(stage, attribs[k].input)
      ensures Digits(CountOf(attribs[..j], attribs[j].input)) + attribs[k].name[|attribs[j].name|..]
           == Digits(CountOf(attribs[..k], attribs[k].input))
    {
      NewNameShape(stage, attribs, j);
      NewNameShape(stage, attribs, k);
      SameStart(stage, attribs[j].input, attribs[k].input, Digits(CountOf(attribs[..j], attribs[j].input)),
                attribs[k].name[|attribs[j].name|..], Digits(CountOf(attribs[..k], attribs[k].input)));
    }
  }

  lemma {:induction false} SameStart(stage: Stage, x: bool, y: bool, d: string, z: string, e: string)
    requires PrefixFor(stage, x) + d + z == PrefixFor(stage, y) + e
    ensures PrefixFor(stage, x) == PrefixFor(stage, y) && d + z == e
  {
    var p, q := PrefixFor(stage, x), PrefixFor(stage, y);
    var w := q + e;
    assert w[1] == p[1] && w[1] == q[1];
    assert p == q;
    assert (p + d + z)[|p|..] == d + z && w[|q|..] == e;
  }

  /** No variable is itself called like a new name. */
  predicate Foreign(attribs: seq<Attrib>) {
    forall i :: 0 <= i < |attribs| ==> !Occurs("attrib", attribs[i].name)
  }

  lemma {:induction false} OccursAppend(f: string, a: string, z: string)
    requires Occurs(f, a) || Occurs(f, z)
    ensures Occurs(f, a + z)
    decreases |a|
  {
    if a == "" {
      assert a + z == z;
      if Occurs(f, a) {
        assert f == "";
      }
    } else {
      assert (a + z)[1..] == a[1..] + z;
      if f <= a {
        assert f <= a + z;
      } else {
        OccursAppend(f, a[1..], z);
      }
    }
  }

  lemma {:induction false} CharInFront(a: string, z: string, c: char, i: nat)
    requires i < |a + z| && (a + z)[i] == c && NoChar(z, c)
    ensures i < |a|
  {
  }

  lemma {:induction false} OccursInFront(f: string, a: string, z: string, c: char)
    requires Occurs(f, a + z) && f != "" && f[|f| - 1] == c && NoChar(z, c)
    ensures Occurs(f, a)
    decreases |a|
  {
    var s := a + z;
    if f <= s {
      assert s[|f| - 1] == c;
      CharInFront(a, z, c, |f| - 1);
      assert f == s[..|f|] == a[..|f|];
    } else if a == "" {
      assert s == z;
      OccursChars(f, z, c);
    } else {
      assert s[1..] == a[1..] + z;
      OccursInFront(f, a[1..], z, c);
    }
  }

  /** Once something has been replaced in it, a word keeps the text of a new name. */
  lemma {:induction false} MarkStays(u: string, f: string, r: string)
    requires f != "" && Occurs("attrib", r) && (Occurs(f, u) || Occurs("attrib", u))
    ensures Occurs("attrib", Replace(u, f, r))
  {
    hide Replace;
    if Occurs(f, u) {
      var a, z := ReplaceFirst(u, f, r);
      OccursAppend("attrib", a, r);
      OccursAppend("attrib", a + r, Replace(z, f, r));
    } else {
      ReplaceAbsent(u, f, r);
    }
  }

  lemma {:induction false} PrefixMarked(stage: Stage, input: bool)
    ensures Occurs("attrib", PrefixFor(stage, input))
  {
    var p := PrefixFor(stage, input);
    var n := |p| - 6;
    assert p[n..] == "attrib";
    assert p == p[..n] + p[n..];
    OccursAppend("attrib", p[..n], p[n..]);
  }

  lemma {:induction false} NewNameMarked(stage: Stage, attribs: seq<Attrib>, k: nat)
    requires k < |attribs|
    ensures Occurs("attrib", NewName(stage, attribs, k))
  {
    hide Occurs, Digits;
    NewNameShape(stage, attribs, k);
    PrefixMarked(stage, attribs[k].input);
    OccursAppend("attrib", PrefixFor(stage, attribs[k].input), Digits(CountOf(attribs[..k], attribs[k].input)));
  }

  lemma {:induction false} MarkedOrSame(stage: Stage, attribs: seq<Attrib>, k: nat, n: nat)
    requires k < |attribs| && n <= |attribs| && Named(attribs)
    ensures var u := Renamed(stage, attribs, n, attribs[k].name);
            || Occurs("attrib", u)
            || (u == attribs[k].name && forall i :: 0 <= i < n ==> !Occurs(attribs[i].name, u))
    decreases n
  {
    hide NewName, Replace, Occurs;
    if n > 0 {
      MarkedOrSame(stage, attribs, k, n - 1);
      var u, f := Renamed(stage, attribs, n - 1, attribs[k].name), attribs[n - 1].name;
      var r := NewName(stage, attribs, n - 1);
      NewNameMarked(stage, attribs, n - 1);
      if Occurs(f, u) || Occurs("attrib", u) {
        MarkStays(u, f, r);
      } else {
        ReplaceAbsent(u, f, r);
      }
    }
  }

  /** Words in which no attribute name occurs stay as they are. */
  lemma {:induction false} OthersUntouched(stage: Stage, attribs: seq<Attrib>, n: nat, word: string)
    requires n <= |attribs| && Named(attribs) && forall i :: 0 <= i < n ==> !Occurs(attribs[i].name, word)
    ensures Renamed(stage, attribs, n, word) == word
  {
    if n > 0 {
      OthersUntouched(stage, attribs, n - 1, word);
      ReplaceAbsent(word, attribs[n - 1].name, NewName(stage, attribs, n - 1));
    }
  }

  /** The condition on the names is enough; and it is needed as long as no variable is called like a new name. */
  lemma {:induction false} RenamedExactly(stage: Stage, attribs: seq<Attrib>, k: nat)
    requires k < |attribs| && Flattened(attribs)
    ensures Named(attribs)
    ensures Kept(stage, attribs, k) ==>
            Renamed(stage, attribs, |attribs|, attribs[k].name) == NewName(stage, attribs, k)
    ensures Foreign(attribs) && Renamed(stage, attribs, |attribs|, attribs[k].name) == NewName(stage, attribs, k) ==>
            Kept(stage, attribs, k)
  {
    hide NewName, Replace, Completes, Renamed, Occurs, FlattenedName;
    FlattenedNamed(attribs);
    if j :| 0 <= j <= k && KeptBy(stage, attribs, k, j) {
      OthersUntouched(stage, attribs, j, attribs[k].name);
      CompletedStays(stage, attribs, k, j, |attribs|);
    }
    if Foreign(attribs) && Renamed(stage, attribs, |attribs|, attribs[k].name) == NewName(stage, attribs, k) {
      var j := CompletedOnce(stage, attribs, k, |attribs|);
      MarkedOrSame(stage, attribs, k, j);
      if Occurs("attrib", Renamed(stage, attribs, j, attribs[k].name)) {
        CompletedMarked(stage, attribs, k, j);
      } else if j > k {
        OccursWhole(attribs[k].name);
      }
      assert KeptBy(stage, attribs, k, j);
    }
  }

  lemma {:induction false} OccursWhole(s: string)
    ensures Occurs(s, s)
  {
  }

  /** A completed word owes the text of a new name to the name that completes it. */
  lemma {:induction false} CompletedMarked(stage: Stage, attribs: seq<Attrib>, k: nat, j: nat)
    requires k < |attribs| && j < |attribs| && Named(attribs)
    requires Completes(stage, attribs, k, j, Renamed(stage, attribs, j, attribs[k].name))
    requires Occurs("attrib", Renamed(stage, attribs, j, attribs[k].name))
    ensures Occurs("attrib", attribs[j].name)
  {
    hide NewName, Renamed, Occurs, Digits;
    var u := Renamed(stage, attribs, j, attribs[k].name);
    var f, z := attribs[j].name, u[|attribs[j].name|..];
    assert u == f + z;
    NewNameShape(stage, attribs, j);
    NewNameShape(stage, attribs, k);
    var d, e := Digits(CountOf(attribs[..j], attribs[j].input)), Digits(CountOf(attribs[..k], attribs[k].input));
    SameStart(stage, attribs[j].input, attribs[k].input, d, z, e);
    assert NoChar(z, 'b') by {
      assert e == d + z;
      forall i | 0 <= i < |z|
        ensures z[i] != 'b'
      {
        assert e[|d| + i] == z[i];
      }
    }
    OccursInFront("attrib", f, z, 'b');
  }

  /** Called like an earlier variable with a tail (uv and uv2), a variable is lost: the second of two vertex
      inputs ends up with the first's new name and that tail. */
  lemma {:induction false} TailLost(a: Attrib, b: Attrib, tail: string)
    requires a.input && b.input && FlattenedName(a.name) && b.name == a.name + tail && tail != ""
    requires Foreign([a, b])
    ensures Named([a, b]) && !Kept(VertexStage, [a, b], 1)
    ensures Renamed(VertexStage, [a, b], 2, b.name) != NewName(VertexStage, [a, b], 1)
  {
    var attribs := [a, b];
    assert FlattenedName(b.name) by {
      if INPUT_PREFIX <= a.name {
        assert INPUT_PREFIX <= b.name;
      } else {
        assert "outputval" <= b.name;
      }
    }
    RenamedExactly(VertexStage, attribs, 1);
    assert attribs[0].name == a.name && attribs[1].name == b.name;
    assert attribs[..0] == [] && attribs[..1] == [a] && [a][..0] == [];
    assert CountOf([a], true) == 1 && CountOf([], true) == 0;
    assert Digits(0) == "0" && Digits(1) == "1";
    assert a.name <= b.name && Occurs(a.name, b.name);
    var rest := b.name[|a.name|..];
    assert ("0" + rest)[0] == '0' && "0" + rest != "1";
    KeptMeans(VertexStage, attribs, 1);
  }

  // ---- linking the stages ----

  predicate NoVertexId(fs: seq<Field>) {
    forall i :: 0 <= i < |fs| ==> fs[i].mapping != "VERTEXID"
  }

  lemma {:induction false} SameDeclarations(fs: seq<Field>, gs: seq<Field>, p: string, q: string)
    requires |fs| == |gs| && NoVertexId(fs)
    requires forall i :: 0 <= i < |fs| ==> fs[i].path != [] && gs[i].path != []
    requires forall i :: 0 <= i < |fs| ==> fs[i].typ == gs[i].typ && fs[i].mapping == gs[i].mapping
    ensures var a, b := FieldAttribs(VertexStage, fs, false, p), FieldAttribs(PixelStage, gs, true, q);
            && |a| == |b|
            && forall i :: 0 <= i < |a| ==>
              a[i].typ == b[i].typ && a[i].mapping == b[i].mapping && !a[i].input && b[i].input
  {
    if fs != [] {
      SameDeclarations(fs[1..], gs[1..], p, q);
    }
  }

  /** A struct returned by the vertex stage and taken by the pixel stage declares as many variables on both sides,
      the k-th with the same type and semantic. */
  lemma {:induction false} StagesLink(param: string, typ: string, members: seq<Var>)
    requires NoVertexId(FieldsAll(members))
    ensures var outs := Declared(VertexStage, Struct("outputval", typ, members), false, "");
            var ins := Declared(PixelStage, Struct(param, typ, members), true, INPUT_PREFIX);
            && |outs| == |ins|
            && (forall i :: 0 <= i < |outs| ==> outs[i].typ == ins[i].typ && outs[i].mapping == ins[i].mapping)
  {
    var fs := FieldsAll(members);
    DeclaredIsFields(VertexStage, Struct("outputval", typ, members), false, "");
    DeclaredIsFields(PixelStage, Struct(param, typ, members), true, INPUT_PREFIX);
    SameDeclarations(Under("outputval", fs), Under(param, fs), "", INPUT_PREFIX);
  }

  lemma {:induction false} CountSame(attribs: seq<Attrib>, input: bool)
    requires forall i :: 0 <= i < |attribs| ==> attribs[i].input == input
    ensures CountOf(attribs, input) == |attribs|
  {
    if attribs != [] {
      CountSame(attribs[..|attribs| - 1], input);
    }
  }

  lemma {:induction false} CountAfter(a: seq<Attrib>, b: seq<Attrib>, input: bool)
    requires forall i :: 0 <= i < |a| ==> a[i].input != input
    requires forall i :: 0 <= i < |b| ==> b[i].input == input
    ensures CountOf(a + b, input) == |b|
  {
    var s := a + b;
    if b != [] {
      assert s[..|s| - 1] == a + b[..|b| - 1];
      CountAfter(a, b[..|b| - 1], input);
    } else if a != [] {
      assert s[..|s| - 1] == a[..|a| - 1] + b;
      CountAfter(a[..|a| - 1], b, input);
    }
  }

  /** In both shader texts the k-th variable ends under the name that both stages count it as, if both keep it; and
      only then, as long as no variable is called like a new name. */
  lemma {:induction false} NumbersLink(vertexInputs: seq<Attrib>, outs: seq<Attrib>, ins: seq<Attrib>,
                                       rest: seq<Attrib>, k: nat)
    requires |outs| == |ins| && k < |outs|
    requires forall i :: 0 <= i < |vertexInputs| ==> vertexInputs[i].input
    requires forall i :: 0 <= i < |outs| ==> !outs[i].input && ins[i].input
    requires Flattened(vertexInputs + outs) && Flattened(ins + rest)
    ensures Named(vertexInputs + outs) && Named(ins + rest)
    ensures var v, p, name := vertexInputs + outs, ins + rest, "_vertex_shader_attrib" + Digits(k);
            var both := Renamed(VertexStage, v, |v|, outs[k].name) == name &&
              Renamed(PixelStage, p, |p|, ins[k].name) == name;
            && (Kept(VertexStage, v, |vertexInputs| + k) && Kept(PixelStage, p, k) ==> both)
            && (both && Foreign(v) && Foreign(p) ==> Kept(VertexStage, v, |vertexInputs| + k) && Kept(PixelStage, p, k))
  {
    var v, p := vertexInputs + outs, ins + rest;
    OutputName(vertexInputs, outs, k);
    InputName(ins, rest, k);
    hide Renamed, NewName, Flattened, Kept;
    RenamedExactly(VertexStage, v, |vertexInputs| + k);
    RenamedExactly(PixelStage, p, k);
  }

  // ---- from declarations to texts ----

  lemma {:induction false} DeclaredFlattened(stage: Stage, v: Var, input: bool, prefix: string)
    requires (input && INPUT_PREFIX <= prefix) || (!input && prefix == "" && v.name == "outputval")
    ensures Flattened(Declared(stage, v, input, prefix))
    ensures forall i :: 0 <= i < |Declared(stage, v, input, prefix)| ==>
            Declared(stage, v, input, prefix)[i].input == input
  {
    hide Declared, Fields, Own, FieldAttribs, Join, FlattenedName;
    DeclaredIsFields(stage, v, input, prefix);
    OwnNames(stage, Fields(v), input, prefix);
    var a, own := Declared(stage, v, input, prefix), Own(stage, Fields(v), input);
    FieldsStart(v);
    OwnStarts(stage, Fields(v), input, v.name);
    forall i | 0 <= i < |a|
      ensures FlattenedName(a[i].name)
    {
      JoinStarts(own[i].path);
      FlattenedStart(prefix, own[i].path[0], Join(own[i].path, "_"));
    }
  }

  lemma {:induction false} FlattenedStart(prefix: string, head: string, path: string)
    requires head <= path && (INPUT_PREFIX <= prefix || (prefix == "" && head == "outputval"))
    ensures FlattenedName(prefix + path)
  {
    if INPUT_PREFIX <= prefix {
      assert INPUT_PREFIX <= prefix + path;
    } else {
      assert prefix + path == path;
    }
  }

  lemma {:induction false} JoinStarts(path: seq<string>)
    requires path != []
    ensures path[0] <= Join(path, "_")
  {
  }

  lemma {:induction false} FieldsStart(v: Var)
    ensures forall i :: 0 <= i < |Fields(v)| ==> Fields(v)[i].path[0] == v.name
  {
  }

  lemma {:induction false} OwnStarts(stage: Stage, fs: seq<Field>, input: bool, n: string)
    requires forall i :: 0 <= i < |fs| ==> fs[i].path != [] && fs[i].path[0] == n
    ensures forall i :: 0 <= i < |Own(stage, fs, input)| ==> Own(stage, fs, input)[i].path[0] == n
  {
    if fs != [] {
      OwnStarts(stage, fs[1..], input, n);
    }
  }

  lemma {:induction false} InputsFlattened(stage: Stage, ms: seq<Var>)
    ensures Flattened(DeclaredAll(stage, ms, true, INPUT_PREFIX))
    ensures forall i :: 0 <= i < |DeclaredAll(stage, ms, true, INPUT_PREFIX)| ==>
            DeclaredAll(stage, ms, true, INPUT_PREFIX)[i].input
  {
    if ms != [] {
      hide Declared, FlattenedName;
      DeclaredFlattened(stage, ms[0], true, INPUT_PREFIX);
      InputsFlattened(stage, ms[1..]);
    }
  }

  /** The same from the declarations of both mains to the final texts. */
  lemma {:induction false} DeclaredNumbersLink(vertexParams: seq<Var>, typ: string, members: seq<Var>, param: string,
                                               pixelParams: seq<Var>, pixelType: Var, k: nat)
    requires NoVertexId(FieldsAll(members)) && pixelType.name == "outputval"
    requires k < |Declared(VertexStage, Struct("outputval", typ, members), false, "")|
    ensures var outs := Declared(VertexStage, Struct("outputval", typ, members), false, "");
            var ins := Declared(PixelStage, Struct(param, typ, members), true, INPUT_PREFIX);
            var first := DeclaredAll(VertexStage, vertexParams, true, INPUT_PREFIX);
            var rest := DeclaredAll(PixelStage, pixelParams, true, INPUT_PREFIX) +
              Declared(PixelStage, pixelType, false, "");
            var v, p, name := first + outs, ins + rest, "_vertex_shader_attrib" + Digits(k);
            && |outs| == |ins| && outs[k].typ == ins[k].typ && Named(v) && Named(p)
            && var both := Renamed(VertexStage, v, |v|, outs[k].name) == name &&
              Renamed(PixelStage, p, |p|, ins[k].name) == name;
               && (Kept(VertexStage, v, |first| + k) && Kept(PixelStage, p, k) ==> both)
               && (both && Foreign(v) && Foreign(p) ==> Kept(VertexStage, v, |first| + k) && Kept(PixelStage, p, k))
  {
    hide Declared, DeclaredAll, FieldsAll, FlattenedName, Renamed, Kept, Foreign, Digits;
    StagesLink(param, typ, members);
    var outs := Declared(VertexStage, Struct("outputval", typ, members), false, "");
    var ins := Declared(PixelStage, Struct(param, typ, members), true, INPUT_PREFIX);
    var first := DeclaredAll(VertexStage, vertexParams, true, INPUT_PREFIX);
    var more := DeclaredAll(PixelStage, pixelParams, true, INPUT_PREFIX);
    var last := Declared(PixelStage, pixelType, false, "");
    DeclaredFlattened(VertexStage, Struct("outputval", typ, members), false, "");
    DeclaredFlattened(PixelStage, Struct(param, typ, members), true, INPUT_PREFIX);
    DeclaredFlattened(PixelStage, pixelType, false, "");
    InputsFlattened(VertexStage, vertexParams);
    InputsFlattened(PixelStage, pixelParams);
    NumbersLink(first, outs, ins, more + last, k);
  }

  lemma {:induction false} OutputName(a: seq<Attrib>, outs: seq<Attrib>, k: nat)
    requires k < |outs|
    requires (forall i :: 0 <= i < |a| ==> a[i].input) && forall i :: 0 <= i < |outs| ==> !outs[i].input
    ensures (a + outs)[|a| + k] == outs[k]
    ensures NewName(VertexStage, a + outs, |a| + k) == "_vertex_shader_attrib" + Digits(k)
  {
    hide Digits;
    assert (a + outs)[..|a| + k] == a + outs[..k];
    CountAfter(a, outs[..k], false);
  }

  lemma {:induction false} InputName(ins: seq<Attrib>, b: seq<Attrib>, k: nat)
    requires k < |ins| && forall i :: 0 <= i < |ins| ==> ins[i].input
    ensures (ins + b)[k] == ins[k]
    ensures NewName(PixelStage, ins + b, k) == "_vertex_shader_attrib" + Digits(k)
  {
    hide Digits;
    assert (ins + b)[..k] == ins[..k];
    CountSame(ins[..k], true);
  }
}
