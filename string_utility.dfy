/**
 * The logging library's string helpers: prefixing every line of a text,
 * searching a builder, quoting, line-feed normalisation and trimming
 * trailing white space.
 *
 * A `StringBuilder` is a `TextBuilder` whose `text` its methods edit.
 * A null reference is `None` where the helper checks for it.
 */
module StringUtility {
  import opened Common

  /** A growable text, edited in place. */
  class TextBuilder {
    var text: string

    constructor (text: string)
      ensures this.text == text
    {
      this.text := text;
    }

    /** `StringBuilder.Insert`. */
    method Insert(index: nat, s: string)
      requires index <= |text|
      modifies this
      ensures text == old(text)[..index] + s + old(text)[index..]
    {
      text := text[..index] + s + text[index..];
    }

    /**
     * `IndexOf(ch, offset)`: the least position at or after `offset` that
     * holds `ch`, or -1 when there is none.
     */
    method IndexOf(ch: char, offset: int) returns (r: int)
      requires 0 <= offset
      ensures r == -1 <==> forall j :: offset <= j < |text| ==> text[j] != ch
      ensures r != -1 ==> offset <= r < |text| && text[r] == ch &&
                          forall j :: offset <= j < r ==> text[j] != ch
    {
      var k := offset;
      var len := |text|;
      while k < len
        invariant offset <= k
        invariant forall j :: offset <= j < k && j < len ==> text[j] != ch
        decreases len - k
      {
        if text[k] == ch {
          return k;
        }
        k := k + 1;
      }
      r := -1;
    }

    /** `TrimEnd`: drops the trailing white space. */
    method TrimEnd()
      modifies this
      ensures text == TrimmedEnd(old(text))
    {
      if |text| == 0 {
        return;
      }
      var i := |text| - 1;
      assert text[..i + 1] == text;
      while i >= 0 && IsWhiteSpace(text[i])
        invariant -1 <= i < |text|
        invariant TrimmedEnd(text[..i + 1]) == TrimmedEnd(text)
        decreases i
      {
        assert text[..i + 1][..i] == text[..i];
        i := i - 1;
      }
      assert text[..i + 1] == TrimmedEnd(text[..i + 1]);
      if i < |text| - 1 {
        text := text[..i + 1];
      } else {
        assert text[..i + 1] == text;
      }
    }
  }

  // ---------------------------------------------------------------------
  // PrefixLines

  /** Every line feed of `u` followed by the prefix. */
  function AfterEachLF(u: string, prefix: string): string
    decreases |u|
  {
    if u == [] then []
    else (if u[0] == '\n' then ['\n'] + prefix else [u[0]]) + AfterEachLF(u[1..], prefix)
  }

  /** The prefix at the start and after every line feed, a trailing one included. */
  function Prefixed(value: string, prefix: string): string
  {
    prefix + AfterEachLF(value, prefix)
  }

  /** A prefix the rescan in `PrefixLines` steps over: no line feed after its first character. */
  predicate ScanSafe(prefix: string)
  {
    forall k :: 1 <= k < |prefix| ==> prefix[k] != '\n'
  }

  lemma {:induction false} AfterEachLFAppend(a: string, b: string, prefix: string)
    ensures AfterEachLF(a + b, prefix) == AfterEachLF(a, prefix) + AfterEachLF(b, prefix)
    decreases |a|
  {
    if a == [] {
      assert a + b == b;
    } else {
      assert (a + b)[0] == a[0] && (a + b)[1..] == a[1..] + b;
      AfterEachLFAppend(a[1..], b, prefix);
    }
  }

  /** A text without a line feed is not changed. */
  lemma {:induction false} AfterEachLFNoLF(u: string, prefix: string)
    requires forall j :: 0 <= j < |u| ==> u[j] != '\n'
    ensures AfterEachLF(u, prefix) == u
    decreases |u|
  {
    if u != [] {
      AfterEachLFNoLF(u[1..], prefix);
      assert u == [u[0]] + u[1..];
    }
  }

  lemma {:induction false} AfterEachLFLength(u: string, prefix: string)
    ensures |AfterEachLF(u, prefix)| == |u| + Count(u, '\n') * |prefix|
    decreases |u|
  {
    if u != [] {
      var rest, n := u[1..], Count(u[1..], '\n');
      AfterEachLFLength(rest, prefix);
      assert |AfterEachLF(rest, prefix)| == |rest| + n * |prefix|;
      if u[0] == '\n' {
        assert Count(u, '\n') == n + 1;
        assert (n + 1) * |prefix| == n * |prefix| + |prefix|;
        assert AfterEachLF(u, prefix) == (['\n'] + prefix) + AfterEachLF(rest, prefix);
      } else {
        assert Count(u, '\n') == n;
        assert AfterEachLF(u, prefix) == [u[0]] + AfterEachLF(rest, prefix);
      }
    }
  }

  /**
   * One prefix per line: the result is as long as the value plus
   * one prefix for the start and one for every line feed.
   */
  lemma PrefixedLength(value: string, prefix: string)
    ensures |Prefixed(value, prefix)| == |value| + (Count(value, '\n') + 1) * |prefix|
  {
    AfterEachLFLength(value, prefix);
  }

  /** An empty prefix leaves the value as it is, as does the early return. */
  lemma {:induction false} PrefixedByEmpty(value: string)
    ensures Prefixed(value, "") == value
    decreases |value|
  {
    if value != [] {
      PrefixedByEmpty(value[1..]);
      assert value == [value[0]] + value[1..];
    }
  }

  /** The text built once the first `k` characters of the value are behind the scan. */
  ghost function Built(value: string, prefix: string, k: nat): string
    requires k <= |value|
  {
    prefix + AfterEachLF(value[..k], prefix)
  }

  /** Passing a line ending at `value[k + d]` extends the built text by that line and a prefix. */
  lemma BuiltStep(value: string, prefix: string, k: nat, d: nat)
    requires k + d < |value| && value[k + d] == '\n'
    requires forall j :: k <= j < k + d ==> value[j] != '\n'
    ensures Built(value, prefix, k + d + 1) == Built(value, prefix, k) + value[k..k + d + 1] + prefix
  {
    var front, line := value[..k], value[k..k + d];
    assert value[..k + d + 1] == (front + line) + ['\n'];
    AfterEachLFAppend(front + line, ['\n'], prefix);
    AfterEachLFAppend(front, line, prefix);
    AfterEachLFNoLF(line, prefix);
    assert AfterEachLF(['\n'], prefix) == ['\n'] + prefix;
    var done := AfterEachLF(front, prefix);
    assert AfterEachLF(value[..k + d + 1], prefix) == (done + line) + (['\n'] + prefix);
    assert value[k..k + d + 1] == line + ['\n'];
    assert prefix + ((done + line) + (['\n'] + prefix)) == (prefix + done) + (line + ['\n']) + prefix;
  }

  /** With no line feed left, the rest of the value is appended as it is. */
  lemma BuiltLast(value: string, prefix: string, k: nat)
    requires k <= |value|
    requires forall j :: k <= j < |value| ==> value[j] != '\n'
    ensures Built(value, prefix, k) + value[k..] == Prefixed(value, prefix)
  {
    assert value == value[..k] + value[k..];
    AfterEachLFAppend(value[..k], value[k..], prefix);
    AfterEachLFNoLF(value[k..], prefix);
  }

  /** The built text ends with the prefix just inserted. */
  lemma BuiltEndsWithPrefix(value: string, prefix: string, k: nat)
    requires k <= |value| && (k == 0 || value[k - 1] == '\n')
    ensures |Built(value, prefix, k)| >= |prefix|
    ensures Built(value, prefix, k)[|Built(value, prefix, k)| - |prefix|..] == prefix
  {
    if k > 0 {
      assert value[..k] == value[..k - 1] + ['\n'];
      AfterEachLFAppend(value[..k - 1], ['\n'], prefix);
      assert AfterEachLF(['\n'], prefix) == ['\n'] + prefix;
    }
  }

  /**
   * `PrefixLines`: puts the prefix at the start of the value and after every
   * line feed. A null value throws.
   */
  method PrefixLines(value: Option<string>, prefix: string) returns (r: Outcome<string>)
    requires ScanSafe(prefix)
    ensures r.Threw? <==> value.None?
    ensures value.Some? ==> r == Returned(Prefixed(value.value, prefix))
  {
    if value.None? {
      return Threw;
    }
    var v := value.value;
    if prefix == [] {
      PrefixedByEmpty(v);
      return Returned(v);
    }
    var builder := new TextBuilder(v);
    ghost var k: nat := 0;
    var i := 0;
    builder.Insert(i, prefix);
    assert Built(v, prefix, 0) == prefix;
    i := ScanFrom(builder, v, prefix, k, i);
    while i != 0
      invariant k <= |v| && (k == 0 || v[k - 1] == '\n')
      invariant builder.text == Built(v, prefix, k) + v[k..]
      invariant i == 0 ==> forall j :: k <= j < |v| ==> v[j] != '\n'
      invariant i != 0 ==> var b := |Built(v, prefix, k)|;
                           b < i <= b + |v| - k && v[k + i - 1 - b] == '\n' &&
                           forall j :: k <= j < k + i - 1 - b ==> v[j] != '\n'
      decreases |v| - k
    {
      ghost var d: nat := i - 1 - |Built(v, prefix, k)|;
      BuiltStep(v, prefix, k, d);
      assert builder.text[..i] == Built(v, prefix, k) + v[k..k + d + 1];
      assert builder.text[i..] == v[k + d + 1..];
      builder.Insert(i, prefix);
      k := k + d + 1;
      i := ScanFrom(builder, v, prefix, k, i);
    }
    BuiltLast(v, prefix, k);
    r := Returned(builder.text);
  }

  /**
   * The rescan `IndexOf('\n', i + 1) + 1` right after the prefix was
   * inserted at `i`: it steps over the prefix and finds the next line feed
   * of the value, or gives 0.
   */
  method ScanFrom(builder: TextBuilder, v: string, prefix: string, ghost k: nat, i: nat) returns (next: int)
    requires ScanSafe(prefix) && prefix != []
    requires k <= |v| && (k == 0 || v[k - 1] == '\n')
    requires builder.text == Built(v, prefix, k) + v[k..]
    requires i + |prefix| == |Built(v, prefix, k)|
    ensures next == 0 ==> forall j :: k <= j < |v| ==> v[j] != '\n'
    ensures next != 0 ==> var b := |Built(v, prefix, k)|;
                          b < next <= b + |v| - k && v[k + next - 1 - b] == '\n' &&
                          forall j :: k <= j < k + next - 1 - b ==> v[j] != '\n'
  {
    ghost var built := Built(v, prefix, k);
    BuiltEndsWithPrefix(v, prefix, k);
    assert forall j :: i < j < |built| ==> builder.text[j] == prefix[j - i];
    assert forall j :: |built| <= j < |builder.text| ==> builder.text[j] == v[k + j - |built|];
    var found := builder.IndexOf('\n', i + 1);
    next := found + 1;
    if found == -1 {
      assert forall j :: k <= j < |v| ==> builder.text[|built| + j - k] == v[j];
    } else {
      assert forall j :: k <= j < k + next - 1 - |built| ==> builder.text[|built| + j - k] == v[j];
    }
  }

  // ---------------------------------------------------------------------
  // QuotedOrDefault

  /**
   * `QuotedOrDefault`: the value's text between double quotes, or the
   * default for a null value; a null default throws. `value` is the text
   * the object converts to.
   */
  function QuotedOrDefault(value: Option<string>, defaultValue: Option<string>): (r: Outcome<string>)
    ensures r.Threw? <==> defaultValue.None?
    ensures defaultValue.Some? && value.None? ==> r == Returned(defaultValue.value)
    ensures defaultValue.Some? && value.Some? ==>
              r.Returned? && |r.value| == |value.value| + 2 &&
              r.value[0] == '"' && r.value[|r.value| - 1] == '"' && r.value[1..|r.value| - 1] == value.value
  {
    if defaultValue.None? then Threw
    else if value.None? then Returned(defaultValue.value)
    else Returned("\"" + value.value + "\"")
  }

  // ---------------------------------------------------------------------
  // NormalizeLF

  /** `Replace("\r\n", "\n")`, scanning left to right. */
  function CollapseCrLf(s: string): string
    decreases |s|
  {
    if s == [] then []
    else if |s| >= 2 && s[0] == '\r' && s[1] == '\n' then "\n" + CollapseCrLf(s[2..])
    else [s[0]] + CollapseCrLf(s[1..])
  }

  /** `Replace('\r', '\n')`. */
  function CrToLf(s: string): string
    decreases |s|
  {
    if s == [] then []
    else (if s[0] == '\r' then "\n" else [s[0]]) + CrToLf(s[1..])
  }

  /** `Replace("\n", lineFeed)`. */
  function LfTo(s: string, lineFeed: string): string
    decreases |s|
  {
    if s == [] then []
    else (if s[0] == '\n' then lineFeed else [s[0]]) + LfTo(s[1..], lineFeed)
  }

  /**
   * `NormalizeLF`: `lineFeed` is `None` for the default, which is the
   * platform's `newLine`.
   */
  function NormalizeLF(value: string, lineFeed: Option<string>, newLine: string): string
  {
    if value == [] || ('\r' !in value && '\n' !in value) then value
    else
      var lf := if lineFeed.Some? then lineFeed.value else newLine;
      var unified := CrToLf(CollapseCrLf(value));
      if lf != "\n" then LfTo(unified, lf) else unified
  }

  /** The reference: every line break — CR LF, a lone CR or a lone LF — becomes `lf`. */
  function LineBreaksAs(s: string, lf: string): string
    decreases |s|
  {
    if s == [] then []
    else if |s| >= 2 && s[0] == '\r' && s[1] == '\n' then lf + LineBreaksAs(s[2..], lf)
    else if s[0] == '\r' || s[0] == '\n' then lf + LineBreaksAs(s[1..], lf)
    else [s[0]] + LineBreaksAs(s[1..], lf)
  }

  lemma {:induction false} UnifiedIsLineBreaks(s: string)
    ensures CrToLf(CollapseCrLf(s)) == LineBreaksAs(s, "\n")
    decreases |s|
  {
    if s != [] {
      if |s| >= 2 && s[0] == '\r' && s[1] == '\n' {
        UnifiedIsLineBreaks(s[2..]);
        var c := CollapseCrLf(s[2..]);
        assert ("\n" + c)[0] == '\n' && ("\n" + c)[1..] == c;
      } else {
        UnifiedIsLineBreaks(s[1..]);
        var c := CollapseCrLf(s[1..]);
        assert ([s[0]] + c)[0] == s[0] && ([s[0]] + c)[1..] == c;
      }
    }
  }

  lemma {:induction false} LfToAppend(a: string, b: string, lf: string)
    ensures LfTo(a + b, lf) == LfTo(a, lf) + LfTo(b, lf)
    decreases |a|
  {
    if a == [] {
      assert a + b == b;
    } else {
      assert (a + b)[0] == a[0] && (a + b)[1..] == a[1..] + b;
      LfToAppend(a[1..], b, lf);
    }
  }

  lemma {:induction false} LfToLineBreaks(s: string, lf: string)
    ensures LfTo(LineBreaksAs(s, "\n"), lf) == LineBreaksAs(s, lf)
    decreases |s|
  {
    if s != [] {
      var rest := if |s| >= 2 && s[0] == '\r' && s[1] == '\n' then s[2..] else s[1..];
      LfToLineBreaks(rest, lf);
      var head := if (|s| >= 2 && s[0] == '\r' && s[1] == '\n') || s[0] == '\r' || s[0] == '\n' then "\n" else [s[0]];
      assert LineBreaksAs(s, "\n") == head + LineBreaksAs(rest, "\n");
      LfToAppend(head, LineBreaksAs(rest, "\n"), lf);
    }
  }

  /** A text without line breaks is its own normal form. */
  lemma {:induction false} LineBreaksAsNone(s: string, lf: string)
    requires '\r' !in s && '\n' !in s
    ensures LineBreaksAs(s, lf) == s
    decreases |s|
  {
    if s != [] {
      assert s == [s[0]] + s[1..];
      LineBreaksAsNone(s[1..], lf);
    }
  }

  /**
   * The chained replacements of `NormalizeLF` turn every line break of the
   * value into the line feed, in one pass; the early return for text
   * without breaks agrees with this.
   */
  lemma NormalizeLFIsLineBreaks(value: string, lineFeed: Option<string>, newLine: string)
    ensures var lf := if lineFeed.Some? then lineFeed.value else newLine;
            NormalizeLF(value, lineFeed, newLine) == LineBreaksAs(value, lf)
  {
    var lf := if lineFeed.Some? then lineFeed.value else newLine;
    if value == [] || ('\r' !in value && '\n' !in value) {
      LineBreaksAsNone(value, lf);
    } else {
      UnifiedIsLineBreaks(value);
      LfToLineBreaks(value, lf);
    }
  }

  lemma {:induction false} LineBreaksAsLfHasNoCr(s: string)
    ensures '\r' !in LineBreaksAs(s, "\n")
    decreases |s|
  {
    if s != [] {
      if |s| >= 2 && s[0] == '\r' && s[1] == '\n' {
        LineBreaksAsLfHasNoCr(s[2..]);
      } else {
        LineBreaksAsLfHasNoCr(s[1..]);
      }
    }
  }

  lemma {:induction false} LineBreaksAsLfKeepsLfText(s: string)
    requires '\r' !in s
    ensures LineBreaksAs(s, "\n") == s
    decreases |s|
  {
    if s != [] {
      assert s == [s[0]] + s[1..];
      LineBreaksAsLfKeepsLfText(s[1..]);
    }
  }

  /** Normalised to "\n", a text has no carriage return and normalising again changes nothing. */
  lemma NormalizeToLfIdempotent(value: string, newLine: string)
    ensures '\r' !in NormalizeLF(value, Some("\n"), newLine)
    ensures NormalizeLF(NormalizeLF(value, Some("\n"), newLine), Some("\n"), newLine) ==
            NormalizeLF(value, Some("\n"), newLine)
  {
    var once := NormalizeLF(value, Some("\n"), newLine);
    NormalizeLFIsLineBreaks(value, Some("\n"), newLine);
    LineBreaksAsLfHasNoCr(value);
    NormalizeLFIsLineBreaks(once, Some("\n"), newLine);
    LineBreaksAsLfKeepsLfText(once);
  }

  // ---------------------------------------------------------------------
  // TrimEnd

  /** `char.IsWhiteSpace`: the Unicode white-space characters. */
  predicate IsWhiteSpace(c: char)
  {
    var n := c as int;
    (9 <= n <= 13) || n == 0x20 || n == 0x85 || n == 0xA0 || n == 0x1680 ||
    (0x2000 <= n <= 0x200A) || n == 0x2028 || n == 0x2029 || n == 0x202F ||
    n == 0x205F || n == 0x3000
  }

  /** The text without its maximal run of trailing white space. */
  function TrimmedEnd(s: string): string
    decreases |s|
  {
    if s == [] || !IsWhiteSpace(s[|s| - 1]) then s else TrimmedEnd(s[..|s| - 1])
  }

  /**
   * Trimming removes exactly the trailing white-space run: what is left is a
   * prefix that does not end in white space, and everything removed is
   * white space.
   */
  lemma {:induction false} TrimmedEndExact(s: string)
    ensures var t := TrimmedEnd(s);
            |t| <= |s| && t == s[..|t|] &&
            (t == [] || !IsWhiteSpace(t[|t| - 1])) &&
            forall j :: |t| <= j < |s| ==> IsWhiteSpace(s[j])
    decreases |s|
  {
    if s != [] && IsWhiteSpace(s[|s| - 1]) {
      var front := s[..|s| - 1];
      TrimmedEndExact(front);
      var t := TrimmedEnd(front);
      assert forall j :: |t| <= j < |front| ==> s[j] == front[j];
      assert s[..|t|] == front[..|t|];
    }
  }

  /** Trimming a trimmed text changes nothing. */
  lemma TrimmedEndIdempotent(s: string)
    ensures TrimmedEnd(TrimmedEnd(s)) == TrimmedEnd(s)
  {
    TrimmedEndExact(s);
  }
}
