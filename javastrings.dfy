/** The java.lang.String operations the modelled code relies on, as functions
    on `seq<char>`, with the facts about them that the codecs need. */
module JavaStrings {

  /** `String.join(sep, parts)`. */
  function Join(parts: seq<string>, sep: string): string
  {
    if |parts| == 0 then ""
    else if |parts| == 1 then parts[0]
    else parts[0] + sep + Join(parts[1..], sep)
  }

  /** Splits `s` at every occurrence of `d`, keeping every piece (empty ones too). */
  function SplitAll(s: string, d: char): (r: seq<string>)
    ensures |r| >= 1
  {
    if |s| == 0 then [""]
    else if s[0] == d then [""] + SplitAll(s[1..], d)
    else
      var rest := SplitAll(s[1..], d);
      [[s[0]] + rest[0]] + rest[1..]
  }

  /** Removes the empty strings at the end of `parts`. */
  function DropTrailingEmpty(parts: seq<string>): (r: seq<string>)
    ensures |r| <= |parts| && r == parts[..|r|]
    ensures |r| > 0 ==> r[|r| - 1] != ""
    ensures forall i :: |r| <= i < |parts| ==> parts[i] == ""
  {
    if |parts| > 0 && parts[|parts| - 1] == "" then DropTrailingEmpty(parts[..|parts| - 1])
    else parts
  }

  /** `s.split(d)` for a one-character regular expression that is not a
      metacharacter: with no match the result is `[s]`; otherwise the pieces,
      without the empty strings at the end. */
  function JavaSplit(s: string, d: char): seq<string>
  {
    if d !in s then [s] else DropTrailingEmpty(SplitAll(s, d))
  }

  /** `s.endsWith(suffix)`. */
  predicate EndsWith(s: string, suffix: string)
  {
    |suffix| <= |s| && s[|s| - |suffix|..] == suffix
  }

  /** `s.replace(c, replacement)` for a one-character target. */
  function ReplaceAll(s: string, c: char, replacement: string): (r: string)
    ensures c !in replacement ==> c !in r
    ensures c !in s ==> r == s
  {
    if |s| == 0 then ""
    else (if s[0] == c then replacement else [s[0]]) + ReplaceAll(s[1..], c, replacement)
  }

  /** `s.toLowerCase()` restricted to ASCII letters. */
  function LowerAscii(s: string): (r: string)
    ensures |r| == |s|
    ensures forall i :: 0 <= i < |s| ==> r[i] == (if 'A' <= s[i] <= 'Z' then s[i] - 'A' + 'a' else s[i])
  {
    if |s| == 0 then "" else [if 'A' <= s[0] <= 'Z' then s[0] - 'A' + 'a' else s[0]] + LowerAscii(s[1..])
  }

  /** Splitting text that holds no separator gives back the text as one piece. */
  lemma {:induction false} SplitAllNoSeparator(s: string, d: char)
    requires d !in s
    ensures SplitAll(s, d) == [s]
  {
    if |s| > 0 {
      assert s[0] != d && d !in s[1..];
      SplitAllNoSeparator(s[1..], d);
      assert [s[0]] + s[1..] == s;
    }
  }

  /** Splitting `a + [d] + b`, where `a` holds no separator, gives `a` and then the pieces of `b`. */
  lemma {:induction false} SplitAllAt(a: string, d: char, b: string)
    requires d !in a
    ensures SplitAll(a + [d] + b, d) == [a] + SplitAll(b, d)
  {
    if |a| == 0 {
      assert a + [d] + b == [d] + b;
      assert ([d] + b)[1..] == b;
    } else {
      assert (a + [d] + b)[1..] == a[1..] + [d] + b;
      SplitAllAt(a[1..], d, b);
      assert [a[0]] + a[1..] == a;
    }
  }

  /** Splitting joined rows that hold no separator gives back the rows. */
  lemma {:induction false} SplitAllJoin(rows: seq<string>, d: char)
    requires |rows| > 0
    requires forall i :: 0 <= i < |rows| ==> d !in rows[i]
    ensures SplitAll(Join(rows, [d]), d) == rows
  {
    if |rows| == 1 {
      SplitAllNoSeparator(rows[0], d);
    } else {
      SplitAllJoin(rows[1..], d);
      SplitAllAt(rows[0], d, Join(rows[1..], [d]));
      assert rows[0] + [d] + Join(rows[1..], [d]) == Join(rows, [d]);
      assert [rows[0]] + rows[1..] == rows;
    }
  }

  /** `String.split` undoes `String.join` when every row is non-empty and
      holds no separator (the empty trailing pieces Java drops cannot occur). */
  lemma JavaSplitJoin(rows: seq<string>, d: char)
    requires |rows| > 0
    requires forall i :: 0 <= i < |rows| ==> |rows[i]| > 0 && d !in rows[i]
    ensures JavaSplit(Join(rows, [d]), d) == rows
  {
    SplitAllJoin(rows, d);
    if d !in Join(rows, [d]) {
      SplitAllNoSeparator(Join(rows, [d]), d);
    }
  }

  /** Putting one more part in front of a non-empty join adds the part and the separator. */
  lemma JoinCons(x: string, parts: seq<string>, sep: string)
    requires |parts| > 0
    ensures Join([x] + parts, sep) == x + sep + Join(parts, sep)
  {
    assert ([x] + parts)[1..] == parts;
  }

  /** Appending one more part to a non-empty join adds the separator and the part. */
  lemma {:induction false} JoinSnoc(parts: seq<string>, x: string, sep: string)
    requires |parts| > 0
    ensures Join(parts + [x], sep) == Join(parts, sep) + sep + x
  {
    if |parts| == 1 {
      assert (parts + [x])[1..] == [x];
    } else {
      assert (parts + [x])[1..] == parts[1..] + [x];
      JoinSnoc(parts[1..], x, sep);
    }
  }
}
