/**
 * Composite format strings as `string.Format` reads them: literal text with
 * numbered placeholders `{0}`, `{1}`, ... that are replaced by the arguments.
 */
module SqlFormat {

  datatype Piece = Lit(text: string) | Hole(index: nat)

  /** A format string, already split into literal text and placeholders. */
  type Template = seq<Piece>

  /** Every placeholder of `t` names one of `n` arguments (otherwise .NET throws FormatException). */
  predicate HolesBelow(t: Template, n: nat) {
    forall i :: 0 <= i < |t| && t[i].Hole? ==> t[i].index < n
  }

  function PieceText(p: Piece, args: seq<string>): string
    requires p.Hole? ==> p.index < |args|
  {
    match p
    case Lit(s) => s
    case Hole(k) => args[k]
  }

  /** `string.Format(t, args)`. */
  function Format(t: Template, args: seq<string>): string
    requires HolesBelow(t, |args|)
  {
    if t == [] then "" else PieceText(t[0], args) + Format(t[1..], args)
  }

  /** A format string with one placeholder between two literals. */
  lemma FormatSplice(a: string, k: nat, b: string, args: seq<string>)
    requires k < |args|
    ensures HolesBelow([Lit(a), Hole(k), Lit(b)], |args|)
    ensures Format([Lit(a), Hole(k), Lit(b)], args) == a + args[k] + b
  {
    var t1: Template := [Lit(b)];
    var t2: Template := [Hole(k)] + t1;
    var t3: Template := [Lit(a)] + t2;
    assert t1[1..] == [];
    assert Format(t1, args) == b;
    assert t2[1..] == t1;
    assert Format(t2, args) == args[k] + b;
    assert t3[1..] == t2;
    assert Format(t3, args) == a + (args[k] + b);
    assert t3 == [Lit(a), Hole(k), Lit(b)];
  }

  /** A format string with two placeholders between three literals. */
  lemma FormatSplice2(a: string, j: nat, b: string, k: nat, c: string, args: seq<string>)
    requires j < |args| && k < |args|
    ensures HolesBelow([Lit(a), Hole(j), Lit(b), Hole(k), Lit(c)], |args|)
    ensures Format([Lit(a), Hole(j), Lit(b), Hole(k), Lit(c)], args) == a + args[j] + b + args[k] + c
  {
    var head: Template := [Lit(a), Hole(j)];
    var tail: Template := [Lit(b), Hole(k), Lit(c)];
    FormatSplice(b, k, c, args);
    FormatHeadHole(a, j, args);
    FormatAppend(head, tail, args);
    JoinTwoAndThree(a, j, b, k, c);
    var x := a + args[j];
    Associate(x, b + args[k], c);
    Associate(x, b, args[k]);
  }

  /** A literal followed by one placeholder. */
  lemma FormatHeadHole(a: string, j: nat, args: seq<string>)
    requires j < |args|
    ensures HolesBelow([Lit(a), Hole(j)], |args|)
    ensures Format([Lit(a), Hole(j)], args) == a + args[j]
  {
    var t1: Template := [Hole(j)];
    var t2: Template := [Lit(a)] + t1;
    assert t1[1..] == [];
    assert Format(t1, args) == args[j];
    assert t2[1..] == t1;
    assert Format(t2, args) == a + args[j];
    assert t2 == [Lit(a), Hole(j)];
  }

  lemma JoinTwoAndThree(a: string, j: nat, b: string, k: nat, c: string)
    ensures [Lit(a), Hole(j)] + [Lit(b), Hole(k), Lit(c)] == [Lit(a), Hole(j), Lit(b), Hole(k), Lit(c)]
  {
  }

  /** Concatenation is associative; stated for one triple so that long texts are regrouped one step at a time. */
  lemma Associate(x: string, y: string, z: string)
    ensures x + (y + z) == x + y + z
  {
  }

  /** The format string "{1}": the second argument alone; the first is not used. */
  lemma FormatSecond(args: seq<string>)
    requires |args| == 2
    ensures HolesBelow([Hole(1)], |args|)
    ensures Format([Hole(1)], args) == args[1]
  {
    var t: Template := [Hole(1)];
    assert t[1..] == [];
  }

  /** The format string "{0}{1}": the two arguments side by side. */
  lemma FormatPair(args: seq<string>)
    requires |args| == 2
    ensures HolesBelow([Hole(0), Hole(1)], |args|)
    ensures Format([Hole(0), Hole(1)], args) == args[0] + args[1]
  {
    var t1: Template := [Hole(1)];
    var t2: Template := [Hole(0)] + t1;
    assert t1[1..] == [];
    assert Format(t1, args) == args[1];
    assert t2[1..] == t1;
    assert Format(t2, args) == args[0] + args[1];
    assert t2 == [Hole(0), Hole(1)];
  }

  /** Formatting two concatenated format strings formats each and concatenates. */
  lemma {:induction false} FormatAppend(a: Template, b: Template, args: seq<string>)
    requires HolesBelow(a, |args|) && HolesBelow(b, |args|)
    ensures HolesBelow(a + b, |args|)
    ensures Format(a + b, args) == Format(a, args) + Format(b, args)
  {
    if a == [] {
      assert a + b == b;
    } else {
      assert (a + b)[1..] == a[1..] + b;
      FormatAppend(a[1..], b, args);
    }
  }
}
