/**
 Go strings as the core uses them: immutable sequences of bytes, with no
 encoding imposed, and `strings.Join`, which builds the request body from
 the prompt fragments.
 */
module GoStrings {

  /** A Go `byte`. */
  type byte = x: int | 0 <= x < 256

  /** A Go `string`; converting it to `[]byte` changes nothing. */
  type GoString = seq<byte>

  /** The bytes of an ASCII literal of the source: each character's code. */
  function Ascii(s: string): (r: GoString)
    requires forall i | 0 <= i < |s| :: s[i] < 128 as char
    ensures |r| == |s|
  {
    if s == "" then [] else [s[0] as int] + Ascii(s[1..])
  }

  /** `strings.Join(elems, sep)`: the elements with `sep` between neighbours. */
  function Join(elems: seq<GoString>, sep: GoString): GoString
  {
    if |elems| == 0 then []
    else if |elems| == 1 then elems[0]
    else elems[0] + sep + Join(elems[1..], sep)
  }

  /**
   `strings.Split(s, [sep])` for a one-byte separator: the pieces between
   separators, so that splitting the empty string gives one empty piece.
   It is the reference against which what `Join` keeps is stated.
   */
  function Split(s: GoString, sep: byte): (r: seq<GoString>)
    ensures |r| >= 1
    decreases |s|
  {
    if |s| == 0 then [[]]
    else
      var rest := Split(s[1..], sep);
      if s[0] == sep then [[]] + rest
      else [[s[0]] + rest[0]] + rest[1..]
  }

  /** A string with no separator in it splits into itself. */
  lemma {:induction false} SplitWithoutSeparator(s: GoString, sep: byte)
    requires sep !in s
    ensures Split(s, sep) == [s]
    decreases |s|
  {
    if |s| > 0 {
      assert sep !in s[1..];
      SplitWithoutSeparator(s[1..], sep);
      assert [s[0]] + s[1..] == s;
    }
  }

  /** Splitting stops at the first separator. */
  lemma {:induction false} SplitAfterPiece(x: GoString, y: GoString, sep: byte)
    requires sep !in x
    ensures Split(x + [sep] + y, sep) == [x] + Split(y, sep)
    decreases |x|
  {
    var s := x + [sep] + y;
    if |x| == 0 {
      assert s == [sep] + y;
      assert s[1..] == y;
    } else {
      assert s[1..] == x[1..] + [sep] + y;
      assert sep !in x[1..];
      SplitAfterPiece(x[1..], y, sep);
      assert [x[0]] + x[1..] == x;
    }
  }

  /**
   Joining with a one-byte separator is undone by splitting on it, as long as
   there is at least one element and no element holds the separator.
   */
  lemma {:induction false} SplitJoin(elems: seq<GoString>, sep: byte)
    requires |elems| >= 1
    requires forall i | 0 <= i < |elems| :: sep !in elems[i]
    ensures Split(Join(elems, [sep]), sep) == elems
    decreases |elems|
  {
    if |elems| == 1 {
      SplitWithoutSeparator(elems[0], sep);
    } else {
      SplitAfterPiece(elems[0], Join(elems[1..], [sep]), sep);
      SplitJoin(elems[1..], sep);
      assert [elems[0]] + elems[1..] == elems;
    }
  }

  /**
   Under the same conditions, `Join` is injective: different fragment lists
   give different strings, and equal ones equal strings.
   */
  lemma JoinInjective(a: seq<GoString>, b: seq<GoString>, sep: byte)
    requires |a| >= 1 && |b| >= 1
    requires forall i | 0 <= i < |a| :: sep !in a[i]
    requires forall i | 0 <= i < |b| :: sep !in b[i]
    ensures Join(a, [sep]) == Join(b, [sep]) <==> a == b
  {
    if Join(a, [sep]) == Join(b, [sep]) {
      SplitJoin(a, sep);
      SplitJoin(b, sep);
    }
  }

  /**
   Without those conditions it is not: a fragment holding the separator
   joins to the same string as the two fragments around it, and the empty
   list to the same string as one empty fragment.
   */
  lemma JoinMerges(x: GoString, y: GoString, sep: byte)
    ensures Join([x + [sep] + y], [sep]) == Join([x, y], [sep])
    ensures Join([], [sep]) == Join([[]], [sep])
  {
  }
}
