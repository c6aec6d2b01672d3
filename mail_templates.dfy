/** The workers' raw-string mail templates, read as literal text and
    `{{name}}` placeholders, and what a `replace` of one placeholder does
    to such a template. */
module MailTemplates {
  import opened Strings

  /** A stretch of literal text, or a placeholder `{{name}}`. */
  datatype Piece = Text(text: string) | Hole(name: string)

  /** The placeholder for `name` as a template writes it. */
  function Placeholder(name: string): string {
    "{{" + name + "}}"
  }

  /** A placeholder name: a lowercase first letter and no brace. */
  predicate ValidName(name: string) {
    |name| > 0 && IsAsciiLower(name[0]) && '{' !in name && '}' !in name
  }

  /** Literal text in which no placeholder can begin: every `{` has,
      two places on, a character that is not a lowercase letter. The
      style blocks' doubled `{{` followed by a line break are such text. */
  predicate Inert(t: string) {
    forall i :: 0 <= i < |t| && t[i] == '{' ==> i + 2 < |t| && !IsAsciiLower(t[i + 2])
  }

  predicate PieceOk(p: Piece) {
    match p
    case Text(t) => Inert(t)
    case Hole(n) => ValidName(n)
  }

  /** A template made of inert text and well-named placeholders. */
  predicate WellFormed(ps: seq<Piece>) {
    forall i :: 0 <= i < |ps| ==> PieceOk(ps[i])
  }

  /** The text of a template once the placeholders named in `fields` are
      filled in; every other placeholder stays as written. */
  function Expand(ps: seq<Piece>, fields: map<string, string>): string {
    if ps == [] then [] else ExpandPiece(ps[0], fields) + Expand(ps[1..], fields)
  }

  function ExpandPiece(p: Piece, fields: map<string, string>): string {
    match p
    case Text(t) => t
    case Hole(n) => if n in fields then fields[n] else Placeholder(n)
  }

  /** The template as written. */
  function Render(ps: seq<Piece>): string {
    Expand(ps, map[])
  }

  /** No placeholder occurrence begins inside inert text. */
  lemma InertPass(t: string, y: string, n: string)
    requires Inert(t) && ValidName(n)
    ensures NoMatchStartsIn(t, y, Placeholder(n))
  {
    var s, pat := t + y, Placeholder(n);
    assert pat[0] == '{' && pat[2] == n[0];
    forall i | 0 <= i < |t|
      ensures !OccursAt(s, pat, i)
    {
      if t[i] != '{' {
        NotAt(s, pat, i, 0);
      } else {
        NotAt(s, pat, i, 2);
      }
    }
  }

  /** None begins inside a text without `{`. */
  lemma FreePass(v: string, y: string, n: string)
    requires '{' !in v
    ensures NoMatchStartsIn(v, y, Placeholder(n))
  {
    var s, pat := v + y, Placeholder(n);
    forall i | 0 <= i < |v|
      ensures !OccursAt(s, pat, i)
    {
      NotAt(s, pat, i, 0);
    }
  }

  /** None begins inside the placeholder of another name. */
  lemma HolePass(m: string, n: string, y: string)
    requires ValidName(m) && ValidName(n) && m != n
    ensures NoMatchStartsIn(Placeholder(m), y, Placeholder(n))
  {
    var x, pat := Placeholder(m), Placeholder(n);
    var s := x + y;
    forall i | 0 <= i < |x|
      ensures !OccursAt(s, pat, i)
    {
      if i == 0 {
        if |m| < |n| {
          assert s[|m| + 2] == '}' && pat[|m| + 2] == n[|m|];
          NotAt(s, pat, 0, |m| + 2);
        } else if |n| < |m| {
          assert s[|n| + 2] == m[|n|] && pat[|n| + 2] == '}';
          NotAt(s, pat, 0, |n| + 2);
        } else {
          var k :| 0 <= k < |m| && m[k] != n[k];
          assert s[k + 2] == m[k] && pat[k + 2] == n[k];
          NotAt(s, pat, 0, k + 2);
        }
      } else if i == 1 {
        assert s[2] == m[0] && pat[1] == '{';
        NotAt(s, pat, 1, 1);
      } else {
        assert s[i] == x[i] && pat[0] == '{';
        assert i < |m| + 2 ==> x[i] == m[i - 2];
        NotAt(s, pat, i, 0);
      }
    }
  }

  /** One `replace` of a placeholder not yet filled, in a well-formed
      template whose filled placeholders hold no `{`: that placeholder is
      filled everywhere, and nothing else changes. */
  lemma {:induction false} ReplaceFills(ps: seq<Piece>, fields: map<string, string>, n: string, v: string)
    requires WellFormed(ps) && ValidName(n) && n !in fields
    requires forall k :: k in fields ==> '{' !in fields[k]
    ensures ReplaceAll(Expand(ps, fields), Placeholder(n), v) == Expand(ps, fields[n := v])
    decreases |ps|
  {
    var pat := Placeholder(n);
    if ps == [] {
      ReplaceAllShort([], pat, v);
    } else {
      var rest := Expand(ps[1..], fields);
      assert PieceOk(ps[0]);
      ReplaceFills(ps[1..], fields, n, v);
      match ps[0]
      case Text(t) =>
        InertPass(t, rest, n);
        ReplaceAllPass(t, rest, pat, v);
      case Hole(m) =>
        if m == n {
          ReplaceAllFront(pat, rest, v);
        } else if m in fields {
          FreePass(fields[m], rest, n);
          ReplaceAllPass(fields[m], rest, pat, v);
        } else {
          HolePass(m, n, rest);
          ReplaceAllPass(Placeholder(m), rest, pat, v);
        }
    }
  }

  /** A style block as the templates write it is inert text. */
  lemma StyleBlockInert()
    ensures Inert("body {{\n  padding: 20px;\n}}\n")
  {
    var t := "body {{\n  padding: 20px;\n}}\n";
    forall i | 0 <= i < |t| && t[i] == '{'
      ensures i + 2 < |t| && !IsAsciiLower(t[i + 2])
    {
      assert i == 5 || i == 6;
    }
  }
}
