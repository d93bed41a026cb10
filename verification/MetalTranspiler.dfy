/** The transpiler object's analysis pass, with its token cursor, against MetalAnalysis
    (libobs-metal/OBSShader.swift:638-733, 1558-1596). */
module MetalTranspiler {
  import opened Tokens
  import opened MetalAnalysis

  /** A parsed function: its name, and where its body's opening brace is. */
  datatype Parsed = Parsed(name: string, start: nat)

  class OBSShader {
    const g: Globals
    const tokens: seq<Token>
    var functions: Functions
    var functionsOrder: seq<string>

    ghost predicate Valid() {
      IsStream(tokens)
    }

    function From(p: nat): seq<Token>
      requires p < |tokens|
    {
      tokens[p..]
    }

    constructor (g: Globals, tokens: seq<Token>, functions: Functions)
      requires IsStream(tokens)
      ensures Valid() && this.g == g && this.tokens == tokens && this.functions == functions && functionsOrder == []
    {
      this.g, this.tokens, this.functions, functionsOrder := g, tokens, functions, [];
    }

    static lemma {:induction false} FoldConcat(g: Globals, d: Functions, info: Info, a: seq<string>, b: seq<string>)
      ensures Fold(g, d, info, a + b) == Fold(g, d, Fold(g, d, info, a), b)
      decreases a
    {
      if a == [] {
        assert a + b == b;
      } else {
        assert (a + b)[1..] == a[1..] + b && (a + b)[0] == a[0];
        FoldConcat(g, d, Effect(g, d, info, a[0]), a[1..], b);
      }
    }

    /** One turn of analyzeFunction's loop, as Scan sees it. */
    lemma {:induction false} Turn(p: nat, end: string, info: Info)
      requires Valid() && p < |tokens| && !tokens[p].kind.End?
      ensures p + 1 < |tokens|
      ensures var t := tokens[p + 1];
              var here, next := Scan(From(p), end), Scan(From(p + 1), end);
              if t.text == end then here == ([], From(p + 1))
              else if t.kind.Name? then
                Fold(g, functions, info, here.0) == Fold(g, functions, Effect(g, functions, info, t.text), next.0) &&
                  here.1 == next.1
              else if t.kind.Other? && (t.text == "{" || t.text == "(") then
                var inner := Scan(From(p + 1), if t.text == "{" then "}" else ")");
                Fold(g, functions, info, here.0)
                == Fold(g, functions, Fold(g, functions, info, inner.0), Scan(inner.1, end).0) &&
                  here.1 == Scan(inner.1, end).1
              else here == next
    {
      var s := From(p);
      var t := s[1..];
      assert t == From(p + 1);
      var here := Scan(s, end);
      if t[0].text != end && !t[0].kind.Name? && t[0].kind.Other? && (t[0].text == "{" || t[0].text == "(") {
        var inner := Scan(t, if t[0].text == "{" then "}" else ")");
        FoldConcat(g, functions, info, inner.0, Scan(inner.1, end).0);
      } else if t[0].text != end && t[0].kind.Name? {
        var next := Scan(t, end);
        assert here.0 == [t[0].text] + next.0;
        assert here.0[1..] == next.0;
      }
    }

    /** analyzeFunction: the cursor is an in-out parameter, shared with the recursive calls. */
    method AnalyzeFunction(functionData: Info, token: nat, end: string) returns (functionData': Info, token': nat)
      requires Valid() && token < |tokens|
      ensures token <= token' < |tokens|
      ensures functionData' == Fold(g, functions, functionData, Scan(From(token), end).0)
      ensures From(token') == Scan(From(token), end).1
      decreases |tokens| - token
    {
      functionData', token' := functionData, token;
      hide Scan, Fold, Effect;
      while !tokens[token'].kind.End?
        invariant token <= token' < |tokens|
        invariant Fold(g, functions, functionData', Scan(From(token'), end).0) ==
                  Fold(g, functions, functionData, Scan(From(token), end).0)
        invariant Scan(From(token'), end).1 == Scan(From(token), end).1
        decreases |tokens| - token'
      {
        Turn(token', end, functionData');
        token' := token' + 1;
        var t := tokens[token'];
        if t.text == end {
          FoldNone(functionData');
          return;
        }
        if t.kind.Name? {
          functionData' := AtName(functionData', t.text);
        } else if t.kind.Other? {
          ghost var at := token';
          if t.text == "{" {
            functionData', token' := AnalyzeFunction(functionData', token', "}");
          } else if t.text == "(" {
            functionData', token' := AnalyzeFunction(functionData', token', ")");
          }
        }
      }
      AtEnd(token', end);
      FoldNone(functionData');
    }

    lemma {:induction false} FoldNone(info: Info)
      ensures Fold(g, functions, info, []) == info
    {
    }

    lemma {:induction false} AtEnd(p: nat, end: string)
      requires Valid() && p < |tokens| && tokens[p].kind.End?
      ensures Scan(From(p), end) == ([], From(p))
    {
    }

    /** The branch for a name. */
    method AtName(functionData: Info, stringToken: string) returns (r: Info)
      ensures r == Effect(g, functions, functionData, stringToken)
    {
      r := functionData;
      if stringToken in g.uniforms && !r.uniforms {
        r := r.(uniforms := true);
      }
      if stringToken in functions {
        var function_ := functions[stringToken];
        if function_.uniforms && !r.uniforms {
          r := r.(uniforms := true);
        }
        r := r.(textures := r.textures + function_.textures);
        r := r.(samplers := r.samplers + function_.samplers);
      } else {
        assert r.textures + [] == r.textures && r.samplers + [] == r.samplers;
      }
      if g.fragment {
        if stringToken in g.textures {
          r := r.(textures := r.textures + [stringToken]);
        } else {
          assert r.textures + [] == r.textures;
        }
        if stringToken in g.samplers {
          r := r.(samplers := r.samplers + [stringToken]);
        } else {
          assert r.samplers + [] == r.samplers;
        }
      } else {
        assert r.textures + [] == r.textures && r.samplers + [] == r.samplers;
      }
    }

    /** The functions as the analysis sees them. */
    function Funcs(parsed: seq<Parsed>): (fs: seq<Func>)
      requires Valid() && forall f :: f in parsed ==> f.start < |tokens|
      ensures |fs| == |parsed|
    {
      if parsed == [] then []
      else
        assert forall f :: f in parsed[1..] ==> f in parsed;
        [Func(parsed[0].name, Scan(From(parsed[0].start), "}").0)] + Funcs(parsed[1..])
    }

    lemma {:induction false} FuncAt(parsed: seq<Parsed>, i: nat)
      requires Valid() && (forall f :: f in parsed ==> f.start < |tokens|) && i < |parsed|
      ensures parsed[i].start < |tokens| && Funcs(parsed)[i] == Func(parsed[i].name, Scan(From(parsed[i].start), "}").0)
    {
      assert parsed[i] in parsed;
      if i > 0 {
        assert forall f :: f in parsed[1..] ==> f in parsed;
        FuncAt(parsed[1..], i - 1);
      }
    }

    /** analyzeFunctions. */
    method AnalyzeFunctions(parsed: seq<Parsed>)
      requires Valid() && (forall f :: f in parsed ==> f.start < |tokens|) && DistinctNames(Funcs(parsed))
      requires functions == Before(Funcs(parsed)) && functionsOrder == []
      modifies this`functions, this`functionsOrder
      ensures functions == After(g, Funcs(parsed), |parsed|)
      ensures |functionsOrder| == |parsed| && forall i :: 0 <= i < |parsed| ==> functionsOrder[i] == parsed[i].name
    {
      ghost var fs := Funcs(parsed);
      var i := 0;
      AfterNone(g, fs);
      hide *;
      while i < |parsed|
        invariant 0 <= i <= |parsed| && functions == After(g, fs, i)
        invariant |functionsOrder| == i && forall k :: 0 <= k < i ==> functionsOrder[k] == parsed[k].name
      {
        var f := parsed[i];
        FuncAt(parsed, i);
        InAfter(g, fs, i, i);
        var functionData := functions[f.name];
        var token: nat;
        AfterStep(g, fs, i, functionData);
        functionData, token := AnalyzeFunction(functionData, f.start, "}");
        functionData := functionData.(textures := Unique(functionData.textures),
                                      samplers := Unique(functionData.samplers));
        functions := functions[f.name := functionData];
        functionsOrder := functionsOrder + [f.name];
        i := i + 1;
      }
    }

    static lemma {:induction false} AfterNone(g: Globals, fs: seq<Func>)
      ensures After(g, fs, 0) == Before(fs)
    {
    }

    static lemma {:induction false} AfterStep(g: Globals, fs: seq<Func>, i: nat, info: Info)
      requires i < |fs| && fs[i].name in After(g, fs, i) && info == After(g, fs, i)[fs[i].name]
      ensures var r := Fold(g, After(g, fs, i), info, fs[i].names);
              After(g, fs, i + 1) ==
                After(g, fs, i)[fs[i].name := r.(textures := Unique(r.textures), samplers := Unique(r.samplers))]
    {
    }

    /** Every function has an entry from the start. */
    static lemma {:induction false} InAfter(g: Globals, fs: seq<Func>, i: nat, k: nat)
      requires i < |fs| && k <= |fs|
      ensures fs[i].name in After(g, fs, k)
      decreases k
    {
      if k == 0 {
        BeforeHas(fs, i);
      } else {
        InAfter(g, fs, i, k - 1);
      }
    }

    static lemma {:induction false} BeforeHas(fs: seq<Func>, i: nat)
      requires i < |fs|
      ensures fs[i].name in Before(fs)
    {
      if i < |fs| - 1 {
        BeforeHas(fs[..|fs| - 1], i);
      }
    }

    /** generateAdditionalArguments; nothing stands for nil. */
    method GenerateAdditionalArguments(functionName: string) returns (output: seq<string>)
      ensures output == ExtraArguments(g, Known(functions, functionName))
    {
      output := [];
      if functionName in functions {
        var f := functions[functionName];
        if f.uniforms {
          output := output + ["uniforms"];
        }
        output := AppendDeclared(output, f.textures, g.textures);
        output := AppendDeclared(output, f.samplers, g.samplers);
      }
    }

    /** One of its two loops: the names used that are declared. */
    method AppendDeclared(output: seq<string>, used: seq<string>, declared: seq<string>) returns (output': seq<string>)
      ensures output' == output + Filter(used, declared)
    {
      output' := output;
      var i := 0;
      assert used[0..] == used;
      while i < |used|
        invariant 0 <= i <= |used|
        invariant output' + Filter(used[i..], declared) == output + Filter(used, declared)
      {
        assert used[i..][1..] == used[i + 1..];
        if used[i] in declared {
          output' := output' + [used[i]];
        }
        i := i + 1;
      }
      assert output' + [] == output';
    }
  }
}
