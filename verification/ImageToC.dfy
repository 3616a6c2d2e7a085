/** The encoder that turns an image into a C initializer, and the initializer read back. */
module ImageToC {
  import opened Words

  /** What is printed between the braces: a designator, a value with its comma, or a line break. */
  datatype Piece = Designator(n: nat) | Value(v: nat) | Newline

  // ----- the text -----

  function Digit(d: nat): char
    requires d < 10
  {
    "0123456789"[d]
  }

  predicate IsDigit(c: char) { '0' <= c <= '9' }

  /** %d and %ld of a number that is not negative */
  function Digits(n: nat): (s: string)
    ensures s != "" && IsDigit(s[0])
  {
    if n < 10 then [Digit(n)] else Digits(n / 10) + [Digit(n % 10)]
  }

  function PieceText(p: Piece): string {
    match p
    case Designator(n) => "[" + Digits(n) + "]="
    case Value(v) => Digits(v) + ","
    case Newline => "\n"
  }

  function Text(ps: seq<Piece>): string {
    if ps == [] then "" else PieceText(ps[0]) + Text(ps[1..])
  }

  lemma {:induction false} TextOfOneMore(ps: seq<Piece>, p: Piece)
    ensures Text(ps + [p]) == Text(ps) + PieceText(p)
  {
    if ps == [] {
      assert ps + [p] == [p];
    } else {
      assert (ps + [p])[1..] == ps[1..] + [p];
      TextOfOneMore(ps[1..], p);
    }
  }

  /** Numbers are decimal. */
  lemma DecimalExample()
    ensures Digits(1907) == "1907" && Digits(255) == "255" && Digits(0) == "0"
    ensures Text([Designator(1907), Value(255), Newline]) == "[1907]=255,\n"
  {
    assert Digits(19) == "19" && Digits(190) == "190" && Digits(25) == "25";
    assert [Designator(1907), Value(255), Newline][1..] == [Value(255), Newline] && [Value(255), Newline][1..] == [Newline];
    assert Text([Newline]) == "\n" && Text([Value(255), Newline]) == "255,\n";
  }

  // ----- reading the text -----

  datatype Option<T> = None | Some(value: T)

  /** The digits at the start of s continue the number 'acc'. */
  function Number(s: string, acc: nat): (r: (nat, string))
    ensures |r.1| <= |s|
    decreases |s|
  {
    if s != "" && IsDigit(s[0]) then Number(s[1..], 10 * acc + (s[0] as int - '0' as int)) else (acc, s)
  }

  /** The tokens of an initializer list, line breaks dropped. */
  function Parse(s: string): Option<seq<Piece>>
    decreases |s|
  {
    if s == "" then Some([])
    else if s[0] == '\n' then Parse(s[1..])
    else if s[0] == '[' then
      var (n, r) := Number(s[1..], 0);
      if |r| < 2 || r[0] != ']' || r[1] != '=' then None else Before(Designator(n), Parse(r[2..]))
    else if IsDigit(s[0]) then
      var (n, r) := Number(s, 0);
      if |r| < 1 || r[0] != ',' then None else Before(Value(n), Parse(r[1..]))
    else None
  }

  function Before(p: Piece, rest: Option<seq<Piece>>): Option<seq<Piece>> {
    if rest.None? then None else Some([p] + rest.value)
  }

  function Tokens(ps: seq<Piece>): seq<Piece> {
    if ps == [] then [] else (if ps[0].Newline? then [] else [ps[0]]) + Tokens(ps[1..])
  }

  lemma {:induction false} NumberOfDigits(n: nat, rest: string)
    ensures Number(Digits(n) + rest, 0) == Number(rest, n)
  {
    if n < 10 {
      assert (Digits(n) + rest)[1..] == rest;
      DigitValue(n);
    } else {
      var tail := [Digit(n % 10)] + rest;
      assert Digits(n) + rest == Digits(n / 10) + tail;
      NumberOfDigits(n / 10, tail);
      DigitValue(n % 10);
      assert tail[1..] == rest;
    }
  }

  lemma DigitValue(d: nat)
    requires d < 10
    ensures IsDigit(Digit(d)) && Digit(d) as int - '0' as int == d
  {
  }

  lemma ParseValue(v: nat, rest: string)
    ensures Parse(Digits(v) + "," + rest) == Before(Value(v), Parse(rest))
  {
    hide Digits, Number;
    var s, tail := Digits(v) + "," + rest, "," + rest;
    assert s == Digits(v) + tail && s[0] == Digits(v)[0];
    NumberOfDigits(v, tail);
    NumberEnds(tail, v);
    assert tail[1..] == rest;
  }

  lemma ParseDesignator(n: nat, rest: string)
    ensures Parse("[" + Digits(n) + "]=" + rest) == Before(Designator(n), Parse(rest))
  {
    hide Digits, Number;
    var s, tail := "[" + Digits(n) + "]=" + rest, "]=" + rest;
    assert s[1..] == Digits(n) + tail;
    NumberOfDigits(n, tail);
    NumberEnds(tail, n);
    assert tail[2..] == rest;
  }

  lemma NumberEnds(s: string, acc: nat)
    requires s != "" && !IsDigit(s[0])
    ensures Number(s, acc) == (acc, s)
  {
  }

  /** Reading back what was printed gives the tokens that were meant. */
  lemma {:induction false} ParseOfText(ps: seq<Piece>)
    ensures Parse(Text(ps)) == Some(Tokens(ps))
  {
    hide Digits, Number;
    if ps != [] {
      var rest := Text(ps[1..]);
      ParseOfText(ps[1..]);
      match ps[0]
      case Newline =>
        assert Text(ps)[0] == '\n' && Text(ps)[1..] == rest;
        assert [] + Tokens(ps[1..]) == Tokens(ps[1..]);
      case Value(v) =>
        ParseValue(v, rest);
      case Designator(n) =>
        ParseDesignator(n, rest);
    }
  }

  // ----- what an initializer denotes -----

  /** The array so far and the position that the next value initializes; None once a value falls outside. */
  type Progress = Option<(seq<nat>, nat)>

  /** Section 6.7.8 of ISO/IEC 9899:1999, for an array: a designator moves on, a value goes where the last one left off. */
  function Apply(st: Progress, p: Piece): Progress {
    if st.None? then None
    else
      var (a, cur) := st.value;
      match p
      case Designator(n) => Some((a, n))
      case Newline => st
      case Value(v) => if cur < |a| then Some((a[cur := v], cur + 1)) else None
  }

  /** Elements that no value reaches are zero. */
  function Initialized(ps: seq<Piece>, size: nat): Progress {
    if ps == [] then Some((seq(size, _ => 0), 0)) else Apply(Initialized(ps[..|ps| - 1], size), ps[|ps| - 1])
  }

  function Denotes(ps: seq<Piece>, size: nat): Option<seq<nat>> {
    var st := Initialized(ps, size);
    if st.None? then None else Some(st.value.0)
  }

  lemma Associates(a: seq<Piece>, b: seq<Piece>, c: seq<Piece>)
    ensures a + (b + c) == a + b + c
  {
  }

  lemma {:induction false} TokensOfOneMore(ps: seq<Piece>, p: Piece)
    ensures Tokens(ps + [p]) == Tokens(ps) + (if p.Newline? then [] else [p])
  {
    if ps == [] {
      assert ps + [p] == [p];
    } else {
      var head, last := if ps[0].Newline? then [] else [ps[0]], if p.Newline? then [] else [p];
      assert (ps + [p])[0] == ps[0] && (ps + [p])[1..] == ps[1..] + [p];
      TokensOfOneMore(ps[1..], p);
      Associates(head, Tokens(ps[1..]), last);
    }
  }

  /** Line breaks mean nothing. */
  lemma {:induction false} TokensInitialize(ps: seq<Piece>, size: nat)
    ensures Initialized(Tokens(ps), size) == Initialized(ps, size)
  {
    if ps != [] {
      var front, p := ps[..|ps| - 1], ps[|ps| - 1];
      assert ps == front + [p];
      TokensOfOneMore(front, p);
      TokensInitialize(front, size);
      if !p.Newline? {
        assert (Tokens(front) + [p])[..|Tokens(front)|] == Tokens(front);
      } else {
        assert Tokens(front) + [] == Tokens(front);
      }
    }
  }

  lemma InitializedFurther(ps: seq<Piece>, size: nat, p: Piece)
    ensures Initialized(ps + [p], size) == Apply(Initialized(ps, size), p)
  {
    assert (ps + [p])[..|ps|] == ps;
  }

  // ----- print -----

  /** The first n bytes are encoded; everything from 'last' on is still zero in the array and in the image up to n. */
  ghost predicate Encoded(image: seq<byte>, ps: seq<Piece>, out: string, n: nat, last: nat) {
    && out == Text(ps) && last <= n <= |image|
    && Initialized(ps, |image|) == Some((PrefixOf(image, last), last))
    && forall k :: last <= k < n ==> image[k] == 0
  }

  /** The next value will initialize position n. */
  ghost predicate AtByte(image: seq<byte>, ps: seq<Piece>, out: string, n: nat) {
    n <= |image| && out == Text(ps) && Initialized(ps, |image|) == Some((PrefixOf(image, n), n))
  }

  lemma NoGap(image: seq<byte>, ps: seq<Piece>, out: string, n: nat)
    requires Encoded(image, ps, out, n, n)
    ensures AtByte(image, ps, out, n)
  {
  }

  /** The image with everything from 'last' on zeroed. */
  function PrefixOf(image: seq<byte>, last: nat): seq<nat>
    requires last <= |image|
  {
    seq(|image|, k requires 0 <= k < |image| => if k < last then image[k] else 0)
  }

  class Printer {
    var out: string
    ghost var pieces: seq<Piece>

    constructor ()
      ensures out == "" && pieces == []
    {
      out, pieces := "", [];
    }

    /** Prints one piece. */
    method Put(p: Piece)
      modifies this
      ensures pieces == old(pieces) + [p] && out == old(out) + PieceText(p)
    {
      out := out + PieceText(p);
      pieces := pieces + [p];
    }

    /** One byte that is printed, after the zeros before it were printed or skipped with a designator. */
    method PutByte(image: seq<byte>, n: nat, last0: nat) returns (last: nat)
      requires last0 <= n < |image| && Encoded(image, pieces, out, n, last0)
      modifies this
      ensures last == n + 1 && Encoded(image, pieces, out, n + 1, last)
    {
      hide Encoded, AtByte, PieceText;
      last := last0;
      if last <= n - 4 {
        Put(Designator(n));
        Jumped(image, old(pieces), old(out), n, last);
      } else {
        while last < n
          invariant last0 <= last <= n && Encoded(image, pieces, out, n, last)
        {
          ghost var ps, o := pieces, out;
          Put(Value(0));
          Stored(image, ps, o, n, last);
          last := last + 1;
        }
        NoGap(image, pieces, out, n);
      }
      ghost var ps, o := pieces, out;
      Put(Value(image[n]));
      StoredByte(image, ps, o, n);
      last := n + 1;
    }

    /** print; 'designated' is the program's flag designated_initializers */
    method Print(image: seq<byte>, designated: bool)
      requires out == "" && pieces == []
      modifies this
      ensures out == Text(pieces) && Denotes(pieces, |image|) == Some(PrefixOf(image, |image|))
      ensures designated ==> (pieces == [] <==> forall k :: 0 <= k < |image| ==> image[k] == 0)
      ensures !designated ==> (pieces == [] <==> image == [])
    {
      var n, last, printed := 0, 0, 0;
      assert PrefixOf(image, 0) == seq(|image|, _ => 0);
      while n < |image|
        invariant 0 <= n <= |image| && 0 <= last <= n && Encoded(image, pieces, out, n, last)
        invariant last == 0 <==> pieces == []
        invariant !designated ==> last == n
        invariant last > 0 && designated ==> exists k :: 0 <= k < n && image[k] != 0
      {
        var c := image[n];
        if c == 0 && designated {
          n := n + 1;
          continue;
        }
        last := PutByte(image, n, last);
        printed := printed + 1;
        if printed % 19 == 0 {
          ghost var ps := pieces;
          Put(Newline);
          BrokenLine(image, ps, n + 1, last);
        }
        assert pieces != [];
        n := n + 1;
      }
      assert PrefixOf(image, last) == PrefixOf(image, |image|);
    }
  }

  lemma Jumped(image: seq<byte>, ps: seq<Piece>, out: string, n: nat, last: nat)
    requires Encoded(image, ps, out, n, last)
    ensures AtByte(image, ps + [Designator(n)], out + PieceText(Designator(n)), n)
  {
    TextOfOneMore(ps, Designator(n));
    InitializedFurther(ps, |image|, Designator(n));
    assert PrefixOf(image, n) == PrefixOf(image, last);
  }

  lemma Stored(image: seq<byte>, ps: seq<Piece>, out: string, n: nat, last: nat)
    requires Encoded(image, ps, out, n, last) && last < n
    ensures Encoded(image, ps + [Value(0)], out + PieceText(Value(0)), n, last + 1)
  {
    TextOfOneMore(ps, Value(0));
    InitializedFurther(ps, |image|, Value(0));
    assert PrefixOf(image, last)[last := 0] == PrefixOf(image, last + 1);
  }

  lemma StoredByte(image: seq<byte>, ps: seq<Piece>, out: string, n: nat)
    requires n < |image| && AtByte(image, ps, out, n)
    ensures Encoded(image, ps + [Value(image[n])], out + PieceText(Value(image[n])), n + 1, n + 1)
  {
    TextOfOneMore(ps, Value(image[n]));
    InitializedFurther(ps, |image|, Value(image[n]));
    assert PrefixOf(image, n)[n := image[n]] == PrefixOf(image, n + 1);
  }

  lemma BrokenLine(image: seq<byte>, ps: seq<Piece>, n: nat, last: nat)
    requires Encoded(image, ps, Text(ps), n, last)
    ensures Encoded(image, ps + [Newline], Text(ps) + PieceText(Newline), n, last)
  {
    TextOfOneMore(ps, Newline);
    InitializedFurther(ps, |image|, Newline);
  }

  lemma TextIsEmptyIff(ps: seq<Piece>)
    ensures Text(ps) == "" <==> ps == []
  {
    if ps != [] {
      assert |PieceText(ps[0])| > 0;
    }
  }

  /**
   * The whole way: the printed text, read as C, denotes the image. Section 6.7.8 of ISO/IEC 9899:1999 has no initializer
   * list without an initializer; nothing is printed exactly for an empty image, and with designators for one of zeros.
   */
  method Encode(image: seq<byte>, designated: bool) returns (text: string)
    ensures Parse(text).Some? && Denotes(Parse(text).value, |image|) == Some(PrefixOf(image, |image|))
    ensures forall k :: 0 <= k < |image| ==> Denotes(Parse(text).value, |image|).value[k] == image[k]
    ensures text == "" <==> if designated then forall k :: 0 <= k < |image| ==> image[k] == 0 else image == []
  {
    var p := new Printer();
    p.Print(image, designated);
    ParseOfText(p.pieces);
    TokensInitialize(p.pieces, |image|);
    TextIsEmptyIff(p.pieces);
    text := p.out;
  }
}
