/** The string handling the parser relies on: Go's strings.Split with a
    one-character separator, strings.Fields, and the decimal counters that
    appear as tokens. */
module Text {

  datatype Option<+T> = None | Some(value: T)

  /** Splits `s` at every occurrence of `sep`, as strings.Split does:
      n separators give n + 1 parts, empty parts included. */
  function Split(s: string, sep: char): (parts: seq<string>)
    ensures |parts| >= 1
    decreases |s|
  {
    if s == [] then [""]
    else
      var rest := Split(s[1..], sep);
      if s[0] == sep then [""] + rest
      else [[s[0]] + rest[0]] + rest[1..]
  }

  /** Puts the parts back together with `sep` between neighbours. */
  function Join(parts: seq<string>, sep: char): string
    decreases |parts|
  {
    if |parts| == 0 then ""
    else if |parts| == 1 then parts[0]
    else parts[0] + [sep] + Join(parts[1..], sep)
  }

  /** No part of a split contains the separator. */
  lemma {:induction false} SplitPartsHaveNoSeparator(s: string, sep: char)
    ensures forall i :: 0 <= i < |Split(s, sep)| ==> sep !in Split(s, sep)[i]
    decreases |s|
  {
    if s != [] {
      SplitPartsHaveNoSeparator(s[1..], sep);
      var rest := Split(s[1..], sep);
      if s[0] != sep {
        assert sep !in rest[0];
        assert forall c :: c in [s[0]] + rest[0] ==> c == s[0] || c in rest[0];
      }
    }
  }

  /** Joining the parts of a split gives the original text back. */
  lemma {:induction false} JoinSplit(s: string, sep: char)
    ensures Join(Split(s, sep), sep) == s
    decreases |s|
  {
    if s != [] {
      JoinSplit(s[1..], sep);
      var rest := Split(s[1..], sep);
      if s[0] == sep {
        assert Split(s, sep) == [""] + rest;
        assert Join([""] + rest, sep) == "" + [sep] + Join(rest, sep);
      } else {
        var parts := Split(s, sep);
        if |rest| == 1 {
          assert parts == [[s[0]] + rest[0]];
        } else {
          assert parts[1..] == rest[1..];
          assert Join(rest, sep) == rest[0] + [sep] + Join(rest[1..], sep);
        }
      }
    }
  }

  /** Splitting a part that holds no separator, followed by one, yields
      that part first and then the split of the remainder. */
  lemma {:induction false} SplitAfterPart(p: string, sep: char, tail: string)
    requires sep !in p
    ensures Split(p + [sep] + tail, sep) == [p] + Split(tail, sep)
    decreases |p|
  {
    if p == [] {
      assert ([] + [sep] + tail)[1..] == tail;
    } else {
      SplitAfterPart(p[1..], sep, tail);
      assert (p + [sep] + tail)[1..] == p[1..] + [sep] + tail;
      assert [p[0]] + p[1..] == p;
    }
  }

  /** Splitting a part that holds no separator gives just that part. */
  lemma {:induction false} SplitOfPart(p: string, sep: char)
    requires sep !in p
    ensures Split(p, sep) == [p]
    decreases |p|
  {
    if p != [] {
      SplitOfPart(p[1..], sep);
      assert [p[0]] + p[1..] == p;
    }
  }

  /** Splitting a join of separator-free parts gives the parts back. */
  lemma {:induction false} SplitJoin(parts: seq<string>, sep: char)
    requires |parts| >= 1
    requires forall i :: 0 <= i < |parts| ==> sep !in parts[i]
    ensures Split(Join(parts, sep), sep) == parts
    decreases |parts|
  {
    if |parts| == 1 {
      SplitOfPart(parts[0], sep);
    } else {
      SplitJoin(parts[1..], sep);
      SplitAfterPart(parts[0], sep, Join(parts[1..], sep));
      assert [parts[0]] + parts[1..] == parts;
    }
  }

  /** Every character of a join is the separator or comes from a part. */
  lemma {:induction false} JoinChars(parts: seq<string>, sep: char, c: char)
    requires c in Join(parts, sep)
    ensures c == sep || exists i :: 0 <= i < |parts| && c in parts[i]
    decreases |parts|
  {
    if |parts| > 1 && c !in parts[0] && c != sep {
      JoinChars(parts[1..], sep, c);
      var i :| 0 <= i < |parts| - 1 && c in parts[1..][i];
      assert c in parts[i + 1];
    }
  }

  /** Go's unicode.IsSpace, which strings.Fields uses to separate tokens. */
  predicate IsSpace(c: char)
    ensures IsSpace(c) ==> !IsDigit(c) && !('a' <= c <= 'z')
  {
    || c == ' ' || c == '\t' || c == '\n' || c == '\U{000B}' || c == '\U{000C}' || c == '\r'
    || c == '\U{0085}' || c == '\U{00A0}' || c == '\U{1680}'
    || ('\U{2000}' <= c <= '\U{200A}')
    || c == '\U{2028}' || c == '\U{2029}' || c == '\U{202F}' || c == '\U{205F}' || c == '\U{3000}'
  }

  /** A token as strings.Fields produces it: non-empty and free of spaces. */
  predicate IsToken(t: string)
  {
    t != [] && forall i :: 0 <= i < |t| ==> !IsSpace(t[i])
  }

  /** Length of the longest prefix of `s` that holds no space. */
  function TokenLength(s: string): (n: nat)
    ensures n <= |s|
    ensures forall i :: 0 <= i < n ==> !IsSpace(s[i])
    ensures n < |s| ==> IsSpace(s[n])
    decreases |s|
  {
    if s == [] || IsSpace(s[0]) then 0 else 1 + TokenLength(s[1..])
  }

  /** strings.Fields: the maximal runs of non-space characters, in order. */
  function Fields(s: string): (fs: seq<string>)
    ensures forall i :: 0 <= i < |fs| ==> IsToken(fs[i])
    ensures s != [] && !IsSpace(s[0]) ==> |fs| >= 1
    decreases |s|
  {
    if s == [] then []
    else if IsSpace(s[0]) then Fields(s[1..])
    else
      var n := TokenLength(s);
      [s[..n]] + Fields(s[n..])
  }

  /** When the text starts with a non-space, its first field is its longest
      space-free prefix, taken character for character. */
  lemma FirstField(s: string)
    requires s != [] && !IsSpace(s[0])
    ensures |Fields(s)| >= 1 && Fields(s)[0] == s[..TokenLength(s)]
  {
  }

  /** Spaces in front of the text add no field. */
  lemma {:induction false} FieldsSkipsSpaces(w: string, s: string)
    requires forall i :: 0 <= i < |w| ==> IsSpace(w[i])
    ensures Fields(w + s) == Fields(s)
    decreases |w|
  {
    if w != [] {
      FieldsSkipsSpaces(w[1..], s);
      assert (w + s)[1..] == w[1..] + s;
    } else {
      assert w + s == s;
    }
  }

  /** A token followed by a run of spaces, or ending the text, is one
      field, and the fields of the rest follow it. Together with
      FieldsSkipsSpaces this pins Fields down on every text: the maximal
      space-free runs, in order. */
  lemma FieldsAfterToken(t: string, w: string, s: string)
    requires IsToken(t) && (w != [] || s == [])
    requires forall i :: 0 <= i < |w| ==> IsSpace(w[i])
    ensures Fields(t + w + s) == [t] + Fields(s)
  {
    var x := t + w + s;
    assert x == t + (w + s);
    TokenLengthOfToken(t, w + s);
    assert x[..|t|] == t;
    assert x[|t|..] == w + s;
    FieldsSkipsSpaces(w, s);
  }

  /** A token followed by a space or by nothing is exactly one token long. */
  lemma {:induction false} TokenLengthOfToken(t: string, rest: string)
    requires IsToken(t)
    requires rest == [] || IsSpace(rest[0])
    ensures TokenLength(t + rest) == |t|
    decreases |t|
  {
    if |t| > 1 {
      TokenLengthOfToken(t[1..], rest);
      assert (t + rest)[1..] == t[1..] + rest;
    } else {
      assert (t + rest)[1..] == rest;
    }
  }

  /** Fields undoes joining tokens with single spaces. */
  lemma {:induction false} FieldsOfJoin(ts: seq<string>)
    requires forall i :: 0 <= i < |ts| ==> IsToken(ts[i])
    ensures Fields(Join(ts, ' ')) == ts
    decreases |ts|
  {
    if |ts| == 1 {
      TokenLengthOfToken(ts[0], []);
      assert ts[0] + [] == ts[0];
      assert ts[0][|ts[0]|..] == [];
    } else if |ts| > 1 {
      var t, tail := ts[0], Join(ts[1..], ' ');
      var s := t + [' '] + tail;
      FieldsOfJoin(ts[1..]);
      TokenLengthOfToken(t, [' '] + tail);
      assert s == t + ([' '] + tail);
      assert s[..|t|] == t;
      assert s[|t|..] == [' '] + tail;
      assert ([' '] + tail)[1..] == tail;
      assert [ts[0]] + ts[1..] == ts;
    }
  }

  predicate IsDigit(c: char)
  {
    '0' <= c <= '9'
  }

  /** A non-empty string of ASCII decimal digits. */
  predicate IsDecimal(t: string)
  {
    |t| > 0 && forall i :: 0 <= i < |t| ==> IsDigit(t[i])
  }

  function DigitValue(c: char): (d: nat)
    requires IsDigit(c)
    ensures d < 10
  {
    (c as int) - ('0' as int)
  }

  function DigitChar(d: nat): (c: char)
    requires d < 10
    ensures IsDigit(c) && DigitValue(c) == d
  {
    (('0' as int) + d) as char
  }

  /** The value of a digit string, most significant digit first. */
  function DecimalValue(t: string): nat
    requires forall i :: 0 <= i < |t| ==> IsDigit(t[i])
    decreases |t|
  {
    if t == [] then 0 else 10 * DecimalValue(t[..|t| - 1]) + DigitValue(t[|t| - 1])
  }

  /** Reads a counter token: a decimal digit string and nothing else. */
  function ParseNat(t: string): (r: Option<nat>)
    ensures r.Some? <==> IsDecimal(t)
  {
    if IsDecimal(t) then Some(DecimalValue(t)) else None
  }

  /** The shortest decimal spelling of `n`. */
  function DecimalString(n: nat): (t: string)
    ensures IsDecimal(t)
    decreases n
  {
    if n < 10 then [DigitChar(n)] else DecimalString(n / 10) + [DigitChar(n % 10)]
  }

  /** Reading back the spelling of a counter gives the counter. */
  lemma {:induction false} ParseDecimalString(n: nat)
    ensures ParseNat(DecimalString(n)) == Some(n)
    decreases n
  {
    var t := DecimalString(n);
    if n >= 10 {
      ParseDecimalString(n / 10);
      assert t[..|t| - 1] == DecimalString(n / 10);
    } else {
      assert t[..|t| - 1] == [];
      assert DecimalValue(t) == 10 * DecimalValue([]) + DigitValue(t[0]);
    }
  }
}
