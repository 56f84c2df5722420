/** A configurable e-mail template and its placeholder substitution. */
module EmailTemplateEntity {
  import opened Common
  import opened Text
  import opened TemplateVariables
  import opened RecipientEntity

  /** The columns of one `EmailTemplates` row. */
  datatype EmailTemplate = EmailTemplate(
    id: Guid,
    name: string,
    subject: string,
    body: string,
    isActive: bool,
    createdAt: Time,
    updatedAt: Time)

  /** The placeholder `{key}` that stands for a variable in a template text. */
  function Placeholder(key: string): (p: string)
    ensures |p| > 0 && p[0] == '{'
  {
    "{" + key + "}"
  }

  predicate BraceFree(s: string)
  {
    forall i :: 0 <= i < |s| ==> s[i] != '{'
  }

  /**
   * The text after replacing, variable by variable in enumeration order,
   * every `{key}` with the variable's value.
   */
  function ExpandText(text: string, vars: Variables): string
    decreases |vars|
  {
    if vars == [] then text
    else ExpandText(ReplaceAll(text, Placeholder(vars[0].0), vars[0].1), vars[1..])
  }

  /**
   * `ProcessTemplate(variables)`: the loop over the variables, rewriting a
   * local copy of the subject and of the body; the template itself is a value
   * and is left as it was.
   */
  method ProcessTemplate(template: EmailTemplate, variables: Variables) returns (subject: string, body: string)
    ensures subject == ExpandText(template.subject, variables)
    ensures body == ExpandText(template.body, variables)
  {
    subject, body := template.subject, template.body;
    var i := 0;
    while i < |variables|
      invariant 0 <= i <= |variables|
      invariant ExpandText(template.subject, variables) == ExpandText(subject, variables[i..])
      invariant ExpandText(template.body, variables) == ExpandText(body, variables[i..])
    {
      var placeholder := Placeholder(variables[i].0);
      subject := ReplaceAll(subject, placeholder, variables[i].1);
      body := ReplaceAll(body, placeholder, variables[i].1);
      assert variables[i..][1..] == variables[i + 1..];
      i := i + 1;
    }
  }

  /** Expanding with no variables leaves a text alone, and expanding with `a + b` is expanding with `a`, then with `b`. */
  lemma {:induction false} ExpandAppend(text: string, a: Variables, b: Variables)
    ensures ExpandText(text, []) == text
    ensures ExpandText(text, a + b) == ExpandText(ExpandText(text, a), b)
    decreases |a|
  {
    if a != [] {
      assert (a + b)[0] == a[0] && (a + b)[1..] == a[1..] + b;
      ExpandAppend(ReplaceAll(text, Placeholder(a[0].0), a[0].1), a[1..], b);
    } else {
      assert a + b == b;
    }
  }

  /** When no variable's placeholder occurs in the text, the text is returned unchanged. */
  lemma {:induction false} ExpandNoPlaceholders(text: string, vars: Variables)
    requires forall k, i: nat :: HasKey(vars, k) ==> !OccursAt(text, Placeholder(k), i)
    ensures ExpandText(text, vars) == text
    decreases |vars|
  {
    if vars != [] {
      var k := vars[0].0;
      assert HasKey(vars, k);
      ReplaceAbsent(text, Placeholder(k), vars[0].1);
      forall k', i: nat | HasKey(vars[1..], k') ensures !OccursAt(text, Placeholder(k'), i) {
        var j :| 0 <= j < |vars[1..]| && vars[1..][j].0 == k';
        assert vars[j + 1].0 == k';
        assert HasKey(vars, k');
      }
      ExpandNoPlaceholders(text, vars[1..]);
    }
  }

  lemma PlaceholderFirstCharUnique(k: string)
    requires BraceFree(k)
    ensures FirstCharUnique(Placeholder(k))
  {
    var p := Placeholder(k);
    forall j | 0 < j < |p| ensures p[j] != p[0] {
      if j <= |k| {
        assert p[j] == k[j - 1];
      }
    }
  }

  /**
   * The variable at any position `n`: if, when its turn comes, the text is
   * `parts` joined by `{k}` and no part holds a `{k}` of its own, then every
   * one of those `{k}` is replaced by the value and nothing else changes
   * before the later variables run.
   */
  lemma ExpandSinglePlaceholder(text: string, vars: Variables, n: nat, parts: seq<string>)
    requires n < |vars| && BraceFree(vars[n].0) && |parts| > 0
    requires forall p, i: nat :: p in parts ==> !OccursAt(p, Placeholder(vars[n].0), i)
    requires ExpandText(text, vars[..n]) == Join(parts, Placeholder(vars[n].0))
    ensures ExpandText(text, vars) == ExpandText(Join(parts, vars[n].1), vars[n + 1..])
  {
    var k, v := vars[n].0, vars[n].1;
    ExpandAt(text, vars, n);
    PlaceholderFirstCharUnique(k);
    ReplaceJoin(parts, Placeholder(k), v);
  }

  /** The expansion, split at the variable at position `n`. */
  lemma ExpandAt(text: string, vars: Variables, n: nat)
    requires n < |vars|
    ensures ExpandText(text, vars)
         == ExpandText(ReplaceAll(ExpandText(text, vars[..n]), Placeholder(vars[n].0), vars[n].1), vars[n + 1..])
  {
    assert vars[..n] + vars[n..] == vars;
    ExpandAppend(text, vars[..n], vars[n..]);
    assert vars[n..][0] == vars[n] && vars[n..][1..] == vars[n + 1..];
  }

  /** Neither `{` nor `}` occurs in the text. */
  predicate NoBraces(s: string)
  {
    forall i :: 0 <= i < |s| ==> s[i] != '{' && s[i] != '}'
  }

  /** A template text read as literal text and `{key}` placeholders. */
  datatype Segment = Literal(text: string) | Hole(key: string)

  function Piece(seg: Segment): string
  {
    match seg
    case Literal(t) => t
    case Hole(k) => Placeholder(k)
  }

  /** The text the segments spell. */
  function Render(segs: seq<Segment>): string
  {
    if segs == [] then "" else Piece(segs[0]) + Render(segs[1..])
  }

  /** Literal text and keys without braces, so that every `{` opens one of the placeholders. */
  predicate Plain(segs: seq<Segment>)
  {
    forall i :: 0 <= i < |segs| ==> match segs[i]
      case Literal(t) => NoBraces(t)
      case Hole(k) => NoBraces(k)
  }

  /** The segments with every placeholder that has a variable filled in and every other placeholder kept as `{key}`. */
  function Fill(segs: seq<Segment>, vars: Variables): string
  {
    if segs == [] then ""
    else
      var piece := match segs[0]
        case Literal(t) => t
        case Hole(k) => (match Lookup(vars, k) case Some(v) => v case None => Placeholder(k));
      piece + Fill(segs[1..], vars)
  }

  /** The segments with the placeholders of key `k` turned into the literal `v`. */
  function FillOne(segs: seq<Segment>, k: string, v: string): (r: seq<Segment>)
    ensures |r| == |segs|
  {
    if segs == [] then []
    else [if segs[0] == Hole(k) then Literal(v) else segs[0]] + FillOne(segs[1..], k, v)
  }

  /** Characters of `{k}` after the first are never `{`, and `}` only at the end. */
  lemma PlaceholderChars(k: string)
    requires NoBraces(k)
    ensures var p := Placeholder(k);
      |p| == |k| + 2 && p[|k| + 1] == '}' &&
      (forall j :: 0 < j < |p| ==> p[j] != '{') &&
      (forall j :: 0 < j <= |k| ==> p[j] == k[j - 1] && p[j] != '}')
  {
  }

  /** No occurrence of `{k}` starts inside a plain segment and runs past its end. */
  lemma PieceNoStraddle(seg: Segment, b: string, k: string)
    requires NoBraces(k)
    requires match seg case Literal(t) => NoBraces(t) case Hole(k') => NoBraces(k')
    ensures NoStraddle(Piece(seg), b, Placeholder(k))
  {
    var a, pat := Piece(seg), Placeholder(k);
    PlaceholderChars(k);
    if seg.Hole? {
      PlaceholderChars(seg.key);
    }
    forall i: nat | i < |a| < i + |pat| ensures !OccursAt(a + b, pat, i) {
      var s := a + b;
      if i + |pat| <= |s| {
        var w := s[i..i + |pat|];
        if i > 0 || seg.Literal? {
          assert w[0] == a[i] != '{';
        } else {
          var j := |seg.key| + 1;
          assert w[j] == a[j] == '}';
          assert pat[j] != '}';
        }
      }
    }
  }

  /** Replacing `{k}` in one plain segment: its own placeholder becomes `v`, anything else stays. */
  lemma ReplacePiece(seg: Segment, k: string, v: string)
    requires NoBraces(k)
    requires match seg case Literal(t) => NoBraces(t) case Hole(k') => NoBraces(k')
    ensures ReplaceAll(Piece(seg), Placeholder(k), v) == Piece(if seg == Hole(k) then Literal(v) else seg)
  {
    var a, pat := Piece(seg), Placeholder(k);
    PlaceholderChars(k);
    if seg == Hole(k) {
      assert a + [] == a;
      ReplaceLeading([], pat, v);
      assert v + [] == v;
    } else {
      if seg.Hole? {
        PlaceholderChars(seg.key);
      }
      forall i: nat ensures !OccursAt(a, pat, i) {
        if i + |pat| <= |a| {
          var w := a[i..i + |pat|];
          if i > 0 || seg.Literal? {
            assert w[0] == a[i] != '{';
          } else if |k| < |seg.key| {
            assert w[|k| + 1] == seg.key[|k|] != '}';
          } else {
            assert w == a;
            assert a[1..|a| - 1] == seg.key;
            assert pat[1..|pat| - 1] == k;
          }
        }
      }
      ReplaceAbsent(a, pat, v);
    }
  }

  /** Replacing `{k}` by `v` in the spelled text fills exactly the placeholders of `k`. */
  lemma {:induction false} ReplaceRender(segs: seq<Segment>, k: string, v: string)
    requires Plain(segs) && NoBraces(k)
    ensures ReplaceAll(Render(segs), Placeholder(k), v) == Render(FillOne(segs, k, v))
    decreases |segs|
  {
    if segs != [] {
      var seg := segs[0];
      assert match seg case Literal(t) => NoBraces(t) case Hole(k') => NoBraces(k');
      PieceNoStraddle(seg, Render(segs[1..]), k);
      ReplaceSplit(Piece(seg), Render(segs[1..]), Placeholder(k), v);
      ReplacePiece(seg, k, v);
      assert Plain(segs[1..]) by {
        forall i | 0 <= i < |segs[1..]| ensures segs[1..][i] == segs[i + 1] { }
      }
      ReplaceRender(segs[1..], k, v);
    } else {
      assert |Render(segs)| < |Placeholder(k)|;
    }
  }

  /** Filling the placeholders of `k` with `v`, then the rest with `rest`, is filling them all with `[(k, v)] + rest`. */
  lemma {:induction false} FillOneThenRest(segs: seq<Segment>, k: string, v: string, rest: Variables)
    ensures Fill(FillOne(segs, k, v), rest) == Fill(segs, [(k, v)] + rest)
    decreases |segs|
  {
    if segs != [] {
      var vars := [(k, v)] + rest;
      assert vars[0] == (k, v) && vars[1..] == rest;
      assert FillOne(segs, k, v)[1..] == FillOne(segs[1..], k, v);
      FillOneThenRest(segs[1..], k, v, rest);
    }
  }

  lemma {:induction false} FillNothing(segs: seq<Segment>)
    ensures Fill(segs, []) == Render(segs)
    decreases |segs|
  {
    if segs != [] {
      FillNothing(segs[1..]);
    }
  }

  lemma FillOneKeepsPlain(segs: seq<Segment>, k: string, v: string)
    requires Plain(segs) && NoBraces(v)
    ensures Plain(FillOne(segs, k, v))
    decreases |segs|
  {
    if segs != [] {
      FillOneKeepsPlain(segs[1..], k, v);
      var r := FillOne(segs, k, v);
      assert r[1..] == FillOne(segs[1..], k, v);
      forall i | 1 <= i < |r| ensures r[i] == FillOne(segs[1..], k, v)[i - 1] { }
      assert forall i | 1 <= i < |segs| :: segs[i] == segs[1..][i - 1];
    }
  }

  /**
   * The meaning of the expansion for a template made of literal text and
   * `{key}` placeholders, with keys and values free of braces: every
   * placeholder whose key has a variable becomes that variable's value and
   * every other placeholder survives as written.
   */
  lemma {:induction false} ExpandFillsPlaceholders(segs: seq<Segment>, vars: Variables)
    requires Plain(segs)
    requires forall i :: 0 <= i < |vars| ==> NoBraces(vars[i].0) && NoBraces(vars[i].1)
    ensures ExpandText(Render(segs), vars) == Fill(segs, vars)
    decreases |vars|
  {
    if vars == [] {
      FillNothing(segs);
    } else {
      var k, v := vars[0].0, vars[0].1;
      ReplaceRender(segs, k, v);
      FillOneKeepsPlain(segs, k, v);
      assert forall i :: 0 <= i < |vars[1..]| ==> vars[1..][i] == vars[i + 1];
      ExpandFillsPlaceholders(FillOne(segs, k, v), vars[1..]);
      assert vars == [(k, v)] + vars[1..];
      FillOneThenRest(segs, k, v, vars[1..]);
    }
  }

  function GreetingSegments(): seq<Segment>
  {
    [Literal("Olá "), Hole(NameKey), Literal(", CDC "), Hole(CdcKey)]
  }

  lemma GreetingRender()
    ensures Render(GreetingSegments()) == "Olá " + Placeholder(NameKey) + ", CDC " + Placeholder(CdcKey)
    ensures Plain(GreetingSegments())
  {
    var s3 := [Hole(CdcKey)];
    var s2 := [Literal(", CDC ")] + s3;
    var s1 := [Hole(NameKey)] + s2;
    assert GreetingSegments() == [Literal("Olá ")] + s1;
    assert Render(s3) == Placeholder(CdcKey) + Render([]);
    assert Render(s2) == ", CDC " + Render(s3);
    assert Render(s1) == Placeholder(NameKey) + Render(s2);
    GreetingPlain();
  }

  lemma GreetingPlain()
    ensures Plain(GreetingSegments())
  {
    assert NoBraces("Olá ") && NoBraces(NameKey) && NoBraces(", CDC ") && NoBraces(CdcKey);
  }

  lemma GreetingFill(r: Recipient)
    ensures Fill(GreetingSegments(), GetTemplateVariables(r)) == "Olá " + r.name + ", CDC " + r.cdc
  {
    var segs, vars := GreetingSegments(), GetTemplateVariables(r);
    TemplateVariablesLookup(r);
    assert Fill(segs[3..], vars) == r.cdc + "";
    assert Fill(segs[2..], vars) == ", CDC " + r.cdc;
    assert Fill(segs[1..], vars) == r.name + ", CDC " + r.cdc;
  }

  /**
   * The template `Olá {usuario.nome}, CDC {usuario.cdc}` for a recipient: the
   * name and the CDC are filled in, whatever they are as long as they hold no
   * braces, and the unused e-mail variable changes nothing.
   */
  lemma GreetingForRecipient(r: Recipient)
    requires NoBraces(r.name) && NoBraces(r.email) && NoBraces(r.cdc)
    ensures ExpandText("Olá " + Placeholder(NameKey) + ", CDC " + Placeholder(CdcKey), GetTemplateVariables(r))
         == "Olá " + r.name + ", CDC " + r.cdc
  {
    var vars := GetTemplateVariables(r);
    GreetingRender();
    GreetingFill(r);
    assert forall i :: 0 <= i < |vars| ==> NoBraces(vars[i].0) && NoBraces(vars[i].1) by {
      assert NoBraces(NameKey) && NoBraces(EmailKey) && NoBraces(CdcKey);
    }
    ExpandFillsPlaceholders(GreetingSegments(), vars);
  }

  function HelloSegments(): seq<Segment>
  {
    [Literal("Hello "), Hole("usuario.nome"), Literal(" "), Hole("x")]
  }

  lemma HelloRender()
    ensures Render(HelloSegments()) == "Hello " + Placeholder("usuario.nome") + " " + Placeholder("x")
    ensures Plain(HelloSegments())
  {
    var s3 := [Hole("x")];
    var s2 := [Literal(" ")] + s3;
    var s1 := [Hole("usuario.nome")] + s2;
    assert HelloSegments() == [Literal("Hello ")] + s1;
    assert Render(s3) == Placeholder("x") + Render([]);
    assert Render(s2) == " " + Render(s3);
    assert Render(s1) == Placeholder("usuario.nome") + Render(s2);
    HelloPlain();
  }

  lemma HelloPlain()
    ensures Plain(HelloSegments())
  {
    assert NoBraces("Hello ") && NoBraces("usuario.nome") && NoBraces(" ") && NoBraces("x");
  }

  lemma HelloFill()
    ensures Fill(HelloSegments(), [("usuario.nome", "Ana")]) == "Hello Ana " + Placeholder("x")
  {
    var segs, vars := HelloSegments(), [("usuario.nome", "Ana")];
    assert Lookup(vars, "x").None?;
    assert Fill(segs[3..], vars) == Placeholder("x") + "";
    assert Fill(segs[2..], vars) == " " + Placeholder("x");
    assert Fill(segs[1..], vars) == "Ana " + Placeholder("x");
  }

  /** `Hello {usuario.nome} {x}` with only `usuario.nome` set to `Ana` becomes `Hello Ana {x}`. */
  lemma HelloAna()
    ensures ExpandText("Hello " + Placeholder("usuario.nome") + " " + Placeholder("x"), [("usuario.nome", "Ana")])
         == "Hello Ana " + Placeholder("x")
  {
    HelloRender();
    HelloFill();
    assert NoBraces("usuario.nome") && NoBraces("Ana");
    ExpandFillsPlaceholders(HelloSegments(), [("usuario.nome", "Ana")]);
  }
}
