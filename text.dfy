/**
 * String helpers used by the WireGuard renderer: Go's `strings.Join`,
 * the `%d` verb of `fmt.Sprintf`, and, as their partners, a splitter,
 * a decimal parser and a `key = value` line lookup that read the text back.
 */
module Text {
  import opened Wrappers

  /** Go's `strings.Join(xs, sep)`. */
  function Join(xs: seq<string>, sep: string): string
    decreases |xs|
  {
    if |xs| == 0 then ""
    else if |xs| == 1 then xs[0]
    else xs[0] + sep + Join(xs[1..], sep)
  }

  /** Joining two non-empty lists puts exactly one separator between their joins. */
  lemma {:induction false} JoinAppend(xs: seq<string>, ys: seq<string>, sep: string)
    requires |xs| > 0 && |ys| > 0
    ensures Join(xs + ys, sep) == Join(xs, sep) + sep + Join(ys, sep)
    decreases |xs|
  {
    if |xs| == 1 {
      assert (xs + ys)[1..] == ys;
    } else {
      assert (xs + ys)[1..] == xs[1..] + ys;
      JoinAppend(xs[1..], ys, sep);
    }
  }

  lemma JoinSnoc(xs: seq<string>, y: string, sep: string)
    requires |xs| > 0
    ensures Join(xs + [y], sep) == Join(xs, sep) + sep + y
  {
    JoinAppend(xs, [y], sep);
  }

  /**
   * The join starts with the first element and ends with the last one: the
   * separator never appears in front of the first element or after the last.
   */
  lemma {:induction false} JoinEnds(xs: seq<string>, sep: string)
    requires |xs| > 0
    ensures var r := Join(xs, sep);
      |r| >= |xs[0]| && r[..|xs[0]|] == xs[0] &&
      |r| >= |xs[|xs| - 1]| && r[|r| - |xs[|xs| - 1]|..] == xs[|xs| - 1]
    decreases |xs|
  {
    if |xs| > 1 {
      JoinEnds(xs[1..], sep);
      var rest := Join(xs[1..], sep);
      assert Join(xs, sep) == xs[0] + (sep + rest);
      assert Join(xs, sep) == (xs[0] + sep) + rest;
    }
  }

  /**
   * Go's `strings.Split(s, string(c))`: the pieces between occurrences of `c`;
   * there is always at least one piece.
   */
  function Split(s: string, c: char): (r: seq<string>)
    ensures |r| >= 1
    decreases |s|
  {
    if |s| == 0 then [""]
    else
      var rest := Split(s[1..], c);
      if s[0] == c then [""] + rest
      else [[s[0]] + rest[0]] + rest[1..]
  }

  lemma {:induction false} SplitNoSeparator(s: string, c: char)
    requires c !in s
    ensures Split(s, c) == [s]
    decreases |s|
  {
    if |s| > 0 {
      SplitNoSeparator(s[1..], c);
      assert [s[0]] + s[1..] == s;
    }
  }

  lemma {:induction false} SplitAtFirst(a: string, b: string, c: char)
    requires c !in a
    ensures Split(a + [c] + b, c) == [a] + Split(b, c)
    decreases |a|
  {
    var s := a + [c] + b;
    if |a| == 0 {
      assert s[1..] == b;
    } else {
      assert s[1..] == a[1..] + [c] + b;
      SplitAtFirst(a[1..], b, c);
      assert [a[0]] + a[1..] == a;
    }
  }

  /** Splitting a join on a separator that no element holds gives the elements back. */
  lemma {:induction false} SplitJoin(xs: seq<string>, c: char)
    requires |xs| > 0
    requires forall k :: 0 <= k < |xs| ==> c !in xs[k]
    ensures Split(Join(xs, [c]), c) == xs
    decreases |xs|
  {
    if |xs| == 1 {
      SplitNoSeparator(xs[0], c);
    } else {
      SplitJoin(xs[1..], c);
      SplitAtFirst(xs[0], Join(xs[1..], [c]), c);
      assert [xs[0]] + xs[1..] == xs;
    }
  }

  /** Each string followed by one `"\n"`, in order. */
  function Terminated(bs: seq<string>): string
    decreases |bs|
  {
    if |bs| == 0 then "" else Terminated(bs[..|bs| - 1]) + bs[|bs| - 1] + "\n"
  }

  lemma TerminatedSnoc(bs: seq<string>, b: string)
    ensures Terminated(bs + [b]) == Terminated(bs) + b + "\n"
  {
    assert (bs + [b])[..|bs|] == bs;
  }

  /** A terminated list is the newline join of the list with an empty last line. */
  lemma {:induction false} TerminatedAsJoin(bs: seq<string>)
    requires |bs| > 0
    ensures Terminated(bs) == Join(bs + [""], "\n")
    decreases |bs|
  {
    var init := bs[..|bs| - 1];
    var last := bs[|bs| - 1];
    if |init| == 0 {
      assert bs == [last];
      assert Terminated(bs) == last + "\n";
    } else {
      TerminatedAsJoin(init);
      assert init + [""] == (init + []) + [""];
      calc {
        Join(bs + [""], "\n");
        { assert bs + [""] == init + [last, ""]; JoinAppend(init, [last, ""], "\n"); }
        Join(init, "\n") + "\n" + Join([last, ""], "\n");
        { JoinSnoc(init, "", "\n"); }
        Terminated(init) + last + "\n";
      }
    }
  }

  /** Concatenation of a list of lists. */
  function Flatten(ls: seq<seq<string>>): seq<string>
    decreases |ls|
  {
    if |ls| == 0 then [] else ls[0] + Flatten(ls[1..])
  }

  /** Joining joins of non-empty groups is joining the flattened groups. */
  lemma {:induction false} JoinFlatten(bs: seq<string>, ls: seq<seq<string>>, sep: string)
    requires |bs| == |ls| > 0
    requires forall k :: 0 <= k < |ls| ==> |ls[k]| > 0 && bs[k] == Join(ls[k], sep)
    ensures |Flatten(ls)| > 0 && Join(bs, sep) == Join(Flatten(ls), sep)
    decreases |ls|
  {
    if |ls| > 1 {
      JoinFlatten(bs[1..], ls[1..], sep);
      JoinAppend(ls[0], Flatten(ls[1..]), sep);
    } else {
      assert Flatten(ls) == ls[0] + Flatten(ls[1..]);
      assert Flatten(ls) == ls[0];
    }
  }

  /** Lines that are non-empty and hold no newline. */
  predicate ProperLines(lines: seq<string>)
  {
    forall j :: 0 <= j < |lines| ==> lines[j] != "" && '\n' !in lines[j]
  }

  lemma ProperAppend(a: seq<string>, b: seq<string>)
    requires ProperLines(a) && ProperLines(b)
    ensures ProperLines(a + b)
  {
    forall j | 0 <= j < |a + b|
      ensures (a + b)[j] != "" && '\n' !in (a + b)[j]
    {
      if j < |a| {
        assert (a + b)[j] == a[j];
      } else {
        assert (a + b)[j] == b[j - |a|];
      }
    }
  }

  lemma {:induction false} FlattenProper(ls: seq<seq<string>>)
    requires forall k :: 0 <= k < |ls| ==> ProperLines(ls[k])
    ensures ProperLines(Flatten(ls))
    decreases |ls|
  {
    if |ls| > 0 {
      FlattenProper(ls[1..]);
      var f := Flatten(ls);
      forall j | 0 <= j < |f| ensures f[j] != "" && '\n' !in f[j] {
        if j >= |ls[0]| {
          assert f[j] == Flatten(ls[1..])[j - |ls[0]|];
        } else {
          assert ProperLines(ls[0]);
        }
      }
    }
  }

  // ----- decimal numbers: the `%d` verb -----

  function DigitChar(d: int): (c: char)
    requires 0 <= d < 10
    ensures '0' <= c <= '9' && c as int - '0' as int == d
  {
    ('0' as int + d) as char
  }

  /** The decimal digits of `n`, most significant first, without leading zeros. */
  function Digits(n: nat): (r: string)
    ensures |r| > 0 && (r[0] == '0' ==> n == 0)
    ensures forall j :: 0 <= j < |r| ==> '0' <= r[j] <= '9'
    decreases n
  {
    if n < 10 then [DigitChar(n)] else Digits(n / 10) + [DigitChar(n % 10)]
  }

  /** `fmt.Sprintf("%d", n)`: an optional minus sign, then the digits of `|n|`. */
  function Decimal(n: int): string
  {
    if n < 0 then "-" + Digits(-n) else Digits(n)
  }

  /** `%d` text is non-empty: a minus sign exactly for negative numbers, then digits. */
  lemma DecimalChars(n: int)
    ensures var r := Decimal(n);
      |r| > 0 &&
      (forall j :: 0 <= j < |r| ==> (r[j] == '-' <==> j == 0 && n < 0)) &&
      (forall j :: 0 <= j < |r| ==> r[j] == '-' || '0' <= r[j] <= '9')
  {
    if n < 0 {
      assert Decimal(n) == "-" + Digits(-n);
    }
  }

  /** Every character of `s` is a decimal digit. */
  predicate AllDigits(s: string)
  {
    forall j :: 0 <= j < |s| ==> '0' <= s[j] <= '9'
  }

  /** The value of a string of decimal digits. */
  function DigitsValue(s: string): nat
    requires AllDigits(s)
    decreases |s|
  {
    if |s| == 0 then 0
    else 10 * DigitsValue(s[..|s| - 1]) + (s[|s| - 1] as int - '0' as int)
  }

  /** Reads back what `%d` writes; anything else is `None`. */
  function ParseDecimal(s: string): Option<int>
  {
    if |s| > 1 && s[0] == '-' && AllDigits(s[1..]) then
      var v: int := DigitsValue(s[1..]); Some(-v)
    else if |s| > 0 && AllDigits(s) then Some(DigitsValue(s))
    else None
  }

  /** Reading back the digits of `n` gives `n`. */
  lemma {:induction false} DigitsValueOfDigits(n: nat)
    ensures DigitsValue(Digits(n)) == n
    decreases n
  {
    if n >= 10 {
      DigitsValueOfDigits(n / 10);
      var r := Digits(n);
      assert r[..|r| - 1] == Digits(n / 10);
    }
  }

  /** `%d` formatting is undone by `ParseDecimal`, for every integer. */
  lemma DecimalRoundTrip(n: int)
    ensures ParseDecimal(Decimal(n)) == Some(n)
  {
    if n < 0 {
      NegativeRoundTrip(Decimal(n), Digits(-n), -n);
    } else {
      DigitsValueOfDigits(n);
      NonNegativeRoundTrip(Decimal(n), n);
    }
  }

  /** A minus sign and the digits of `m` read back as `-m`. */
  lemma NegativeRoundTrip(s: string, d: string, m: nat)
    requires s == "-" + d && d == Digits(m)
    ensures ParseDecimal(s) == Some(-(m as int))
  {
    assert s[1..] == d;
    DigitsValueOfDigits(m);
  }

  /** The digits of `n`, which never start with a minus sign, read back as `n`. */
  lemma NonNegativeRoundTrip(s: string, n: nat)
    requires s == Digits(n) && DigitsValue(s) == n
    ensures ParseDecimal(s) == Some(n)
  {
    assert s[0] != '-';
  }

  // ----- `key = value` lines -----

  /** The rendering of one `key = value` line. */
  function Entry(key: string, value: string): string
  {
    key + " = " + value
  }

  /** The line starts with `key = `. */
  predicate HasKey(line: string, key: string)
  {
    |key| + 3 <= |line| && line[..|key| + 3] == key + " = "
  }

  /** The values of all lines `key = value` with the given key, in order. */
  function Lookup(lines: seq<string>, key: string): seq<string>
    decreases |lines|
  {
    if |lines| == 0 then []
    else (if HasKey(lines[0], key) then [lines[0][|key| + 3..]] else []) + Lookup(lines[1..], key)
  }

  lemma {:induction false} LookupAppend(a: seq<string>, b: seq<string>, key: string)
    ensures Lookup(a + b, key) == Lookup(a, key) + Lookup(b, key)
    decreases |a|
  {
    if |a| > 0 {
      assert (a + b)[1..] == a[1..] + b;
      LookupAppend(a[1..], b, key);
    } else {
      assert a + b == b;
    }
  }

  lemma LookupHit(key: string, value: string)
    ensures Lookup([Entry(key, value)], key) == [value]
  {
    var line := Entry(key, value);
    assert line[..|key| + 3] == key + " = ";
    assert line[|key| + 3..] == value;
  }

  /** A line that differs from `key = ` at position `j` is not found under `key`. */
  lemma LookupMiss(line: string, key: string, j: nat)
    requires j < |key| + 3
    requires j < |line| ==> line[j] != (key + " = ")[j]
    ensures Lookup([line], key) == []
  {
  }
}
