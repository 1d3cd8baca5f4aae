/** The fixed-width banner generators of `ConfigManager`: a 54-column box,
    optionally turned into YAML comment lines by a leading `#`. */
module HeaderFormat {
  import opened Common
  import opened JavaStrings

  /** The widest header the box can hold. */
  const MaxHeaderLength := 54

  /** `String.valueOf(c).repeat(n)`. */
  function Repeat(c: char, n: nat): (r: string)
    ensures |r| == n && forall i :: 0 <= i < n ==> r[i] == c
  {
    if n == 0 then "" else [c] + Repeat(c, n - 1)
  }

  /** The comment mark put in front of every line when `prefix` is set. */
  function Mark(prefix: bool): string
  {
    if prefix then "#" else ""
  }

  /** The blanks on the left and on the right of a header of `len` characters:
      together they fill the 54 columns, the right side taking the odd one. */
  function Spacing(len: nat): (r: (nat, nat))
    requires len <= MaxHeaderLength
    ensures r.0 + len + r.1 == MaxHeaderLength
    ensures r.1 == r.0 || r.1 == r.0 + 1
  {
    var prefixSpacing := (MaxHeaderLength - len) / 2;
    var suffixSpacing := (MaxHeaderLength - len) - prefixSpacing;
    (prefixSpacing, suffixSpacing)
  }

  /** The line of hashes at the top and the bottom of the box. */
  function HashLine(prefix: bool): string
  {
    Mark(prefix) + Repeat('#', 59)
  }

  /** The `+---+` rule under the top and above the bottom line of hashes. */
  function RuleLine(prefix: bool): string
  {
    Mark(prefix) + " +" + Repeat('-', 54) + "+ #"
  }

  /** `generateHeader(header, prefix)`: five lines, the header centred in the middle one. */
  function GenerateHeader(header: string, prefix: bool): (r: Result<string, Fault>)
    ensures r.Failure? <==> |header| > MaxHeaderLength
  {
    if |header| > MaxHeaderLength then Failure(Runtime("Your header is long, the maximum header length is 54"))
    else
      var prefixFirst := HashLine(prefix) + "\n" + RuleLine(prefix);
      var suffixLast := RuleLine(prefix) + "\n" + HashLine(prefix);
      var (prefixSpacing, suffixSpacing) := Spacing(|header|);
      var headerPrefix := Mark(prefix) + " |" + Repeat(' ', prefixSpacing);
      var headerSuffix := Repeat(' ', suffixSpacing) + "| #";
      Success(prefixFirst + "\n" + headerPrefix + header + headerSuffix + "\n" + suffixLast)
  }

  /** `generateHeaderMiddle(header, prefix)`: the middle line alone, closed by `"| "`. */
  function GenerateHeaderMiddle(header: string, prefix: bool): (r: Result<string, Fault>)
    ensures r.Failure? <==> |header| > MaxHeaderLength
  {
    if |header| > MaxHeaderLength then Failure(Runtime("Your header is long, the maximum header length is 54"))
    else
      var (prefixSpacing, suffixSpacing) := Spacing(|header|);
      var headerPrefix := Mark(prefix) + " |" + Repeat(' ', prefixSpacing);
      var headerSuffix := Repeat(' ', suffixSpacing) + "| ";
      Success(headerPrefix + header + headerSuffix)
  }

  /** The width of every line of the box: 59 columns, 60 with the comment mark. */
  function BoxWidth(prefix: bool): nat
  {
    if prefix then 60 else 59
  }

  /** The middle line is `" |"` (after the optional `#`), the centred header and
      `"| "`; it is one column narrower than the box and holds the header at
      column `|Mark| + 2 + left spacing`. */
  lemma HeaderMiddleShape(header: string, prefix: bool)
    requires |header| <= MaxHeaderLength
    ensures GenerateHeaderMiddle(header, prefix).Success?
    ensures var line := GenerateHeaderMiddle(header, prefix).value;
      var start := |Mark(prefix)| + 2 + Spacing(|header|).0;
      && |line| == BoxWidth(prefix) - 1
      && line[..|Mark(prefix)| + 2] == Mark(prefix) + " |"
      && line[start..start + |header|] == header
      && line[|line| - 2..] == "| "
      && (forall i :: |Mark(prefix)| + 2 <= i < start ==> line[i] == ' ')
      && (forall i :: start + |header| <= i < |line| - 2 ==> line[i] == ' ')
  {
    var (p, q) := Spacing(|header|);
    var headerPrefix := Mark(prefix) + " |" + Repeat(' ', p);
    var line := headerPrefix + header + (Repeat(' ', q) + "| ");
    assert GenerateHeaderMiddle(header, prefix).value == line;
    var start := |Mark(prefix)| + 2 + p;
    assert line[start..start + |header|] == header;
    forall i | |Mark(prefix)| + 2 <= i < start ensures line[i] == ' ' {
      assert line[i] == Repeat(' ', p)[i - |Mark(prefix)| - 2];
    }
    forall i | start + |header| <= i < |line| - 2 ensures line[i] == ' ' {
      assert line[i] == Repeat(' ', q)[i - start - |header|];
    }
  }

  /** Joining five lines with newlines, written out. */
  lemma {:induction false} JoinFive(a: string, b: string, c: string, d: string, e: string)
    ensures Join([a, b, c, d, e], "\n") == a + "\n" + b + "\n" + c + "\n" + d + "\n" + e
  {
    JoinCons(d, [e], "\n");
    assert [d] + [e] == [d, e];
    JoinCons(c, [d, e], "\n");
    assert [c] + [d, e] == [c, d, e];
    JoinCons(b, [c, d, e], "\n");
    assert [b] + [c, d, e] == [b, c, d, e];
    JoinCons(a, [b, c, d, e], "\n");
    assert [a] + [b, c, d, e] == [a, b, c, d, e];
  }

  /** Regrouping the pieces `generateHeader` formats into its five lines. */
  lemma Regroup(top: string, rule: string, left: string, header: string, right: string)
    ensures (top + "\n" + rule) + "\n" + left + header + right + "\n" + (rule + "\n" + top)
         == top + "\n" + rule + "\n" + (left + header + right) + "\n" + rule + "\n" + top
  {
  }

  /** `generateHeader` produces five lines of equal width: hashes, rule, the
      middle line, rule, hashes; the middle line is `generateHeaderMiddle`'s
      followed by the closing `#`. */
  lemma GenerateHeaderLines(header: string, prefix: bool)
    requires |header| <= MaxHeaderLength
    ensures GenerateHeader(header, prefix).Success? && GenerateHeaderMiddle(header, prefix).Success?
    ensures var boxed := GenerateHeaderMiddle(header, prefix).value + "#";
      && GenerateHeader(header, prefix).value
           == Join([HashLine(prefix), RuleLine(prefix), boxed, RuleLine(prefix), HashLine(prefix)], "\n")
      && |HashLine(prefix)| == |RuleLine(prefix)| == |boxed| == BoxWidth(prefix)
  {
    var (p, q) := Spacing(|header|);
    var left := Mark(prefix) + " |" + Repeat(' ', p);
    var middle := left + header + (Repeat(' ', q) + "| ");
    assert GenerateHeaderMiddle(header, prefix).value == middle;
    var right := Repeat(' ', q) + "| #";
    assert middle + "#" == left + header + right;
    Regroup(HashLine(prefix), RuleLine(prefix), left, header, right);
    JoinFive(HashLine(prefix), RuleLine(prefix), left + header + right, RuleLine(prefix), HashLine(prefix));
  }
}
