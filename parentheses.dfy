/** Counting parentheses in a generated line of C#. */
module Parentheses {

  /** Opening minus closing parentheses. */
  function Depth(line: string): int {
    if line == [] then 0
    else (if line[0] == '(' then 1 else if line[0] == ')' then -1 else 0) + Depth(line[1..])
  }

  lemma {:induction false} DepthAppend(a: string, b: string)
    ensures Depth(a + b) == Depth(a) + Depth(b)
  {
    if a == [] {
      assert a + b == b;
    } else {
      assert (a + b)[1..] == a[1..] + b;
      DepthAppend(a[1..], b);
    }
  }

  predicate ParenFree(text: string) {
    '(' !in text && ')' !in text
  }

  lemma {:induction false} ParenFreeDepth(text: string)
    requires ParenFree(text)
    ensures Depth(text) == 0
  {
    if text != [] {
      assert text[0] in text;
      assert forall c :: c in text[1..] ==> c in text;
      ParenFreeDepth(text[1..]);
    }
  }

  /** Depth of a line made of nine pieces, from the depths of the pieces. */
  lemma DepthOfNine(a: string, b: string, c: string, d: string, e: string, f: string, g: string, h: string, i: string)
    ensures Depth(a + b + c + d + e + f + g + h + i) ==
            Depth(a) + Depth(b) + Depth(c) + Depth(d) + Depth(e) + Depth(f) + Depth(g) + Depth(h) + Depth(i)
  {
    DepthAppend(a, b);
    DepthAppend(a + b, c);
    DepthAppend(a + b + c, d);
    DepthAppend(a + b + c + d, e);
    DepthAppend(a + b + c + d + e, f);
    DepthAppend(a + b + c + d + e + f, g);
    DepthAppend(a + b + c + d + e + f + g, h);
    DepthAppend(a + b + c + d + e + f + g + h, i);
  }

  lemma ReturnDepth()
    ensures Depth("return ") == 0
  {
    ParenFreeDepth("return ");
  }

  lemma DivideDepth()
    ensures Depth("f / dimension.Value") == 0
  {
    ParenFreeDepth("f / dimension.Value");
  }

  lemma TimesDepth()
    ensures Depth(" * ") == 0
  {
    ParenFreeDepth(" * ");
  }

  lemma SemicolonDepth()
    ensures Depth("f;") == 0
  {
    ParenFreeDepth("f;");
  }

  /** The piece that ends the line as written: one parenthesis too many. */
  lemma ClosingPieceDepth()
    ensures Depth("f);") == -1
  {
    assert "f);"[1..] == ");";
    assert ");"[1..] == ";";
    assert ";"[1..] == "";
  }

  /** A line `p + "(" + n + q + ")" + r + s + t` whose pieces other than
      the two parentheses and `t` are balanced has the depth of `t`. */
  lemma CutLineDepth(p: string, n: string, q: string, r: string, s: string, t: string)
    requires Depth(p) == 0 && Depth(n) == 0 && Depth(q) == 0 && Depth(r) == 0 && Depth(s) == 0
    ensures Depth(p + "(" + n + q + ")" + r + s + t) == Depth(t)
  {
    DepthOfNine([], p, "(", n, q, ")", r, s, t);
    assert [] + p == p;
  }

  /** The `ScaleInverselyAttribute` line of `ToBase`, cut at its
      parentheses, has depth -1 as written, and depth 0 with its last
      parenthesis dropped, whenever the indentation and the two argument
      texts hold no parenthesis. */
  lemma ScaleInverselyLineDepths(indent: string, n: string, s: string)
    requires ParenFree(indent) && ParenFree(n) && ParenFree(s)
    ensures Depth(indent + "return " + "(" + n + "f / dimension.Value" + ")" + " * " + s + "f);") == -1
    ensures Depth(indent + "return " + "(" + n + "f / dimension.Value" + ")" + " * " + s + "f;") == 0
  {
    ParenFreeDepth(indent);
    ParenFreeDepth(n);
    ParenFreeDepth(s);
    ReturnDepth();
    DivideDepth();
    TimesDepth();
    SemicolonDepth();
    ClosingPieceDepth();
    DepthAppend(indent, "return ");
    CutLineDepth(indent + "return ", n, "f / dimension.Value", " * ", s, "f);");
    CutLineDepth(indent + "return ", n, "f / dimension.Value", " * ", s, "f;");
  }
}
