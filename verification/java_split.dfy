/** `String.split("[;,]")` as the JDK's regular-expression split performs it
    with the default limit 0: the input is cut at every ';' and every ',',
    leading and inner empty fields are kept, trailing empty fields are
    dropped, and an input that contains no separator at all comes back whole
    as the only element. */
module JavaSplit {

  predicate IsSeparator(c: char) {
    c == ';' || c == ','
  }

  predicate NoSeparator(s: string) {
    forall i :: 0 <= i < |s| ==> !IsSeparator(s[i])
  }

  predicate OnlySeparators(s: string) {
    forall i :: 0 <= i < |s| ==> IsSeparator(s[i])
  }

  /** Every field between two separators (or an end of the input), empty
      fields included: n separators give n + 1 fields. */
  function Fields(s: string): (r: seq<string>)
    ensures |r| >= 1
    ensures forall k :: 0 <= k < |r| ==> NoSeparator(r[k])
    decreases |s|
  {
    if |s| == 0 then [""]
    else
      var rest := Fields(s[1..]);
      if IsSeparator(s[0]) then [""] + rest
      else
        assert NoSeparator(rest[0]);
        [[s[0]] + rest[0]] + rest[1..]
  }

  /** The longest prefix of `xs` that does not end in an empty string: what
      a split with limit 0 keeps of its fields. */
  function DropTrailingEmpty(xs: seq<string>): (r: seq<string>)
    ensures r <= xs
    ensures |r| == 0 || r[|r| - 1] != ""
    ensures forall k :: |r| <= k < |xs| ==> xs[k] == ""
  {
    if |xs| == 0 then []
    else if xs[|xs| - 1] == "" then DropTrailingEmpty(xs[..|xs| - 1])
    else xs
  }

  /** The tokens `props.split("[;,]")` returns. */
  function Split(s: string): (r: seq<string>)
    ensures forall k :: 0 <= k < |r| ==> NoSeparator(r[k])
  {
    if NoSeparator(s) then [s] else DropTrailingEmpty(Fields(s))
  }

  /** The fields glued back together, each pair separated by ';'. */
  function Join(fields: seq<string>): string
    requires |fields| >= 1
  {
    if |fields| == 1 then fields[0] else fields[0] + ";" + Join(fields[1..])
  }

  /** `s` with every ',' written as ';': two inputs with the same canonical
      form differ only in which separator they use where. */
  function Canonical(s: string): string {
    seq(|s|, i requires 0 <= i < |s| => if s[i] == ',' then ';' else s[i])
  }

  lemma {:induction false} FieldsOfNoSeparator(a: string)
    requires NoSeparator(a)
    ensures Fields(a) == [a]
    decreases |a|
  {
    if |a| > 0 {
      FieldsOfNoSeparator(a[1..]);
      assert [a[0]] + a[1..] == a;
    }
  }

  /** A separator after a separator-free prefix closes the first field. */
  lemma {:induction false} FieldsAfterSeparator(a: string, c: char, rest: string)
    requires NoSeparator(a) && IsSeparator(c)
    ensures Fields(a + [c] + rest) == [a] + Fields(rest)
    decreases |a|
  {
    var s := a + [c] + rest;
    if |a| == 0 {
      assert s[1..] == rest;
    } else {
      assert s[1..] == a[1..] + [c] + rest;
      FieldsAfterSeparator(a[1..], c, rest);
      assert [a[0]] + a[1..] == a;
    }
  }

  /** Joining the fields gives back the input up to the choice of separator. */
  lemma {:induction false} JoinFields(s: string)
    ensures Join(Fields(s)) == Canonical(s)
    decreases |s|
  {
    if |s| > 0 {
      var rest := Fields(s[1..]);
      JoinFields(s[1..]);
      assert Canonical(s) == Canonical(s[..1]) + Canonical(s[1..]);
      if !IsSeparator(s[0]) {
        var fs := Fields(s);
        if |rest| == 1 {
          assert Join(fs) == [s[0]] + rest[0];
        } else {
          assert fs[1..] == rest[1..];
          assert Join(rest) == rest[0] + ";" + Join(rest[1..]);
        }
      }
    }
  }

  /** Splitting a join of separator-free fields gives the fields back. */
  lemma {:induction false} FieldsJoin(fs: seq<string>)
    requires |fs| >= 1
    requires forall k :: 0 <= k < |fs| ==> NoSeparator(fs[k])
    ensures Fields(Join(fs)) == fs
    decreases |fs|
  {
    if |fs| == 1 {
      FieldsOfNoSeparator(fs[0]);
    } else {
      FieldsAfterSeparator(fs[0], ';', Join(fs[1..]));
      assert fs[0] + ";" + Join(fs[1..]) == fs[0] + [';'] + Join(fs[1..]);
      FieldsJoin(fs[1..]);
      assert [fs[0]] + fs[1..] == fs;
    }
  }

  /** ';' and ',' are interchangeable: only the positions of separators
      matter to the fields. */
  lemma FieldsIgnoreSeparatorKind(s: string, t: string)
    requires Canonical(s) == Canonical(t)
    ensures Fields(s) == Fields(t)
  {
    JoinFields(s);
    JoinFields(t);
    FieldsJoin(Fields(s));
    FieldsJoin(Fields(t));
  }

  lemma SplitIgnoresSeparatorKind(s: string, t: string)
    requires Canonical(s) == Canonical(t)
    ensures Split(s) == Split(t)
  {
    FieldsIgnoreSeparatorKind(s, t);
    assert |s| == |Canonical(s)| == |t|;
    assert NoSeparator(s) <==> NoSeparator(t) by {
      forall i | 0 <= i < |s|
        ensures IsSeparator(s[i]) <==> IsSeparator(t[i])
      {
        assert Canonical(s)[i] == Canonical(t)[i];
      }
    }
    if NoSeparator(s) {
      assert s == Canonical(s) && t == Canonical(t);
    }
  }

  /** Separators alone leave nothing but empty fields. */
  lemma {:induction false} FieldsOfOnlySeparators(t: string)
    requires OnlySeparators(t)
    ensures forall k :: 0 <= k < |Fields(t)| ==> Fields(t)[k] == ""
    decreases |t|
  {
    if |t| > 0 {
      FieldsOfOnlySeparators(t[1..]);
    }
  }

  /** Content made of separators only splits into no token at all. */
  lemma SplitOnlySeparators(t: string)
    requires t != "" && OnlySeparators(t)
    ensures Split(t) == []
  {
    FieldsOfOnlySeparators(t);
    assert !NoSeparator(t) by { assert IsSeparator(t[0]); }
  }

  /** One separator-free token followed only by separators splits into that
      token alone: Java's split drops the trailing empty fields. */
  lemma SplitSingleToken(a: string, tail: string)
    requires a != "" && NoSeparator(a) && OnlySeparators(tail)
    ensures Split(a + tail) == [a]
  {
    if tail == "" {
      assert a + tail == a;
    } else {
      assert tail == [tail[0]] + tail[1..];
      assert a + tail == a + [tail[0]] + tail[1..];
      FieldsAfterSeparator(a, tail[0], tail[1..]);
      FieldsOfOnlySeparators(tail[1..]);
      var fs := Fields(a + tail);
      var r := DropTrailingEmpty(fs);
      assert fs[0] == a;
      assert !NoSeparator(a + tail) by { assert (a + tail)[|a|] == tail[0]; }
      assert |r| >= 1;
      assert |r| == 1;
    }
  }

  /** The first two tokens of `a c b tail` are `a` and `b` whenever `b` is a
      non-empty field and `tail` is empty or starts at a separator; what
      follows `b` never changes them. */
  lemma SplitLeadingTokens(a: string, c: char, b: string, tail: string)
    requires NoSeparator(a) && IsSeparator(c) && NoSeparator(b) && b != ""
    requires tail == "" || IsSeparator(tail[0])
    ensures |Split(a + [c] + b + tail)| >= 2
    ensures Split(a + [c] + b + tail)[0] == a
    ensures Split(a + [c] + b + tail)[1] == b
  {
    var s := a + [c] + b + tail;
    assert s == a + [c] + (b + tail);
    FieldsAfterSeparator(a, c, b + tail);
    if tail == "" {
      assert b + tail == b;
      FieldsOfNoSeparator(b);
    } else {
      assert b + tail == b + [tail[0]] + tail[1..];
      FieldsAfterSeparator(b, tail[0], tail[1..]);
    }
    var fs := Fields(s);
    assert fs[0] == a && fs[1] == b;
    assert !NoSeparator(s) by { assert s[|a|] == c; }
    var r := DropTrailingEmpty(fs);
    assert |r| >= 2;
  }
}
