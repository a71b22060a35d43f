/** XpathUtil.replaceXpath: fills `{...}` placeholders of an XPath template.
    Each value in turn replaces the leftmost shortest match of the regular
    expression `\{.*?\}` in the current string (String.replaceFirst). */
module XpathUtil {
  import opened Wrappers
  import opened Sequences

  /** The characters that `.` in a java.util.regex pattern does not match. */
  predicate IsLineTerminator(c: char) {
    c == '\n' || c == '\r' || c == '\U{85}' || c == '\U{2028}' || c == '\U{2029}'
  }

  predicate SingleLine(s: string) {
    forall i :: 0 <= i < |s| ==> !IsLineTerminator(s[i])
  }

  /** A value that replaceFirst inserts literally: `$` and `\` would be read as
      group references and escapes, and a line terminator would change what
      later steps match. */
  predicate LiteralReplacement(v: string) {
    SingleLine(v) && forall i :: 0 <= i < |v| ==> v[i] != '$' && v[i] != '\\'
  }

  /** A string with neither `{` nor `}`. */
  predicate BraceFree(v: string) {
    forall i :: 0 <= i < |v| ==> v[i] != '{' && v[i] != '}'
  }

  /** The first index at or after `from` that holds `c`, or |s| when none does. */
  function IndexOf(s: string, c: char, from: nat): (k: nat)
    requires from <= |s|
    ensures from <= k <= |s|
    ensures k < |s| ==> s[k] == c
    ensures forall j :: from <= j < k ==> s[j] != c
    decreases |s| - from
  {
    if from == |s| then |s|
    else if s[from] == c then from
    else IndexOf(s, c, from + 1)
  }

  /** s[i..j+1] is the leftmost shortest match of `\{.*?\}`: the first `{` of
      s, and the first `}` after it. */
  predicate IsPlaceholderAt(s: string, i: int, j: int) {
    && 0 <= i < j < |s|
    && s[i] == '{' && s[j] == '}'
    && (forall k :: 0 <= k < i ==> s[k] != '{')
    && (forall k :: i < k < j ==> s[k] != '}')
  }

  /** No `}` follows any `{`, so the pattern matches nowhere. */
  predicate NoPlaceholder(s: string) {
    forall i, j :: 0 <= i < j < |s| && s[i] == '{' ==> s[j] != '}'
  }

  /** Where the regular expression matches first, if anywhere. */
  function FindPlaceholder(s: string): (r: Option<(nat, nat)>)
    ensures r.Some? ==> IsPlaceholderAt(s, r.value.0, r.value.1)
    ensures r.None? ==> NoPlaceholder(s)
  {
    var i := IndexOf(s, '{', 0);
    if i == |s| then None
    else
      var j := IndexOf(s, '}', i + 1);
      if j == |s| then None else Some((i, j))
  }

  /** The pattern matches nowhere exactly when no `}` follows a `{`. */
  lemma FindPlaceholderNone(s: string)
    ensures FindPlaceholder(s).None? <==> NoPlaceholder(s)
  {
    var r := FindPlaceholder(s);
    if r.Some? {
      assert s[r.value.0] == '{' && s[r.value.1] == '}';
    }
  }

  /** A placeholder position is determined by the string. */
  lemma PlaceholderUnique(s: string, i: nat, j: nat)
    requires IsPlaceholderAt(s, i, j)
    ensures FindPlaceholder(s) == Some((i, j))
  {
  }

  /** One step of the loop: String.replaceFirst("\\{.*?\\}", v). */
  function ReplaceFirst(s: string, v: string): string {
    match FindPlaceholder(s)
    case None => s
    case Some((i, j)) => s[..i] + v + s[j + 1..]
  }

  /** The whole loop: the values applied in argument order. */
  function FillAll(s: string, values: seq<string>): string
    decreases |values|
  {
    if values == [] then s else FillAll(ReplaceFirst(s, values[0]), values[1..])
  }

  /** replaceXpath(xpath, values...). */
  method ReplaceXpath(xpath: string, values: seq<string>) returns (r: string)
    requires SingleLine(xpath)
    requires forall k :: 0 <= k < |values| ==> LiteralReplacement(values[k])
    ensures r == FillAll(xpath, values)
    ensures values == [] ==> r == xpath
  {
    r := xpath;
    for i := 0 to |values|
      invariant FillAll(r, values[i..]) == FillAll(xpath, values)
    {
      assert values[i..][1..] == values[i + 1..];
      r := ReplaceFirst(r, values[i]);
    }
    assert values[|values|..] == [];
  }

  /** A value replaces the leftmost `{...}` token, whatever text surrounds it:
      the text before the first `{` and after the token's first `}` is kept
      exactly. The token's interior may hold further `{`. */
  lemma ReplaceFirstSplit(a: string, m: string, z: string, v: string)
    requires forall k :: 0 <= k < |a| ==> a[k] != '{'
    requires forall k :: 0 <= k < |m| ==> m[k] != '}'
    ensures ReplaceFirst(a + "{" + m + "}" + z, v) == a + v + z
  {
    var s := a + "{" + m + "}" + z;
    assert IsPlaceholderAt(s, |a|, |a| + |m| + 1) by {
      forall k | |a| < k < |a| + |m| + 1 ensures s[k] != '}' {
        assert s[k] == m[k - |a| - 1];
      }
    }
    PlaceholderUnique(s, |a|, |a| + |m| + 1);
    assert s[..|a|] == a;
    assert s[|a| + |m| + 2..] == z;
  }

  /** Without a token a step changes nothing. */
  lemma ReplaceFirstNoPlaceholder(s: string, v: string)
    requires NoPlaceholder(s)
    ensures ReplaceFirst(s, v) == s
  {
  }

  /** Once no token remains, further values leave the string as it is. */
  lemma {:induction false} ExtraValuesKeepString(s: string, values: seq<string>)
    requires NoPlaceholder(s)
    ensures FillAll(s, values) == s
    decreases |values|
  {
    if values != [] {
      ReplaceFirstNoPlaceholder(s, values[0]);
      ExtraValuesKeepString(s, values[1..]);
    }
  }

  /** The number of tokens the values can fill, one after another, when the
      values themselves bring no braces. */
  function Placeholders(s: string): nat
    decreases |s|
  {
    var r := FindPlaceholder(s);
    if r.None? then 0 else 1 + Placeholders(s[r.value.1 + 1..])
  }

  /** Text without `{` in front adds no token. */
  lemma NoPlaceholderBehind(a: string, b: string)
    requires forall k :: 0 <= k < |a| ==> a[k] != '{'
    requires NoPlaceholder(b)
    ensures NoPlaceholder(a + b)
  {
    var s := a + b;
    forall i, j | 0 <= i < j < |s| && s[i] == '{' ensures s[j] != '}' {
      assert i >= |a|;
      assert s[i] == b[i - |a|] && s[j] == b[j - |a|];
    }
  }

  /** Text without `{` in front shifts the first token by its length. */
  lemma PlaceholderBehind(a: string, b: string, i: nat, j: nat)
    requires forall k :: 0 <= k < |a| ==> a[k] != '{'
    requires IsPlaceholderAt(b, i, j)
    ensures IsPlaceholderAt(a + b, |a| + i, |a| + j)
  {
    var s := a + b;
    forall k | |a| + i < k < |a| + j ensures s[k] != '}' {
      assert s[k] == b[k - |a|];
    }
    forall k | 0 <= k < |a| + i ensures s[k] != '{' {
      if k >= |a| { assert s[k] == b[k - |a|]; }
    }
  }

  /** Placeholders, one token at a time. */
  lemma PlaceholdersAt(s: string, i: nat, j: nat, rest: string)
    requires IsPlaceholderAt(s, i, j)
    requires rest == s[j + 1..]
    ensures Placeholders(s) == 1 + Placeholders(rest)
  {
    PlaceholderUnique(s, i, j);
    assert Placeholders(s) == 1 + Placeholders(s[j + 1..]);
  }

  /** Dropping past a prefix. */
  lemma DropOfConcat(a: string, b: string, n: nat)
    requires n <= |b|
    ensures (a + b)[|a| + n..] == b[n..]
  {
  }

  /** Text without `{` in front does not change the number of tokens. */
  lemma PlaceholdersBehind(a: string, b: string)
    requires forall k :: 0 <= k < |a| ==> a[k] != '{'
    ensures Placeholders(a + b) == Placeholders(b)
  {
    var f := FindPlaceholder(b);
    if f.None? {
      NoPlaceholderBehind(a, b);
      assert FindPlaceholder(a + b).None?;
    } else {
      var (i, j) := f.value;
      PlaceholderBehind(a, b, i, j);
      DropOfConcat(a, b, j + 1);
      PlaceholdersAt(a + b, |a| + i, |a| + j, b[j + 1..]);
      PlaceholdersAt(b, i, j, b[j + 1..]);
    }
  }

  /** A token inside p is found in p + q at the same place. */
  lemma ReplaceFirstPrefix(p: string, q: string, v: string)
    requires FindPlaceholder(p).Some?
    ensures ReplaceFirst(p + q, v) == ReplaceFirst(p, v) + q
  {
    var i, j := FindPlaceholder(p).value.0, FindPlaceholder(p).value.1;
    PlaceholderInPrefix(p, q, i, j);
    PlaceholderUnique(p + q, i, j);
    ReplaceFirstAt(p + q, v, i, j);
    ReplaceFirstAt(p, v, i, j);
    SlicesOfConcat(p, q, i, j + 1);
    ConcatAssoc(p[..i] + v, p[j + 1..], q);
  }

  /** A step replaces the token it finds. */
  lemma ReplaceFirstAt(s: string, v: string, i: nat, j: nat)
    requires FindPlaceholder(s) == Some((i, j))
    ensures j < |s| && ReplaceFirst(s, v) == s[..i] + v + s[j + 1..]
  {
  }

  /** A token of p is still the first token of p + q. */
  lemma PlaceholderInPrefix(p: string, q: string, i: nat, j: nat)
    requires IsPlaceholderAt(p, i, j)
    ensures IsPlaceholderAt(p + q, i, j)
  {
    var s := p + q;
    forall k | 0 <= k <= j ensures s[k] == p[k] { }
  }

  lemma SlicesOfConcat(p: string, q: string, i: nat, n: nat)
    requires i <= n <= |p|
    ensures (p + q)[..i] == p[..i]
    ensures (p + q)[n..] == p[n..] + q
  {
  }

  lemma ReplaceFirstConsumesOne(p: string, v: string)
    requires FindPlaceholder(p).Some?
    requires BraceFree(v)
    ensures Placeholders(ReplaceFirst(p, v)) == Placeholders(p) - 1
  {
    var (i, j) := FindPlaceholder(p).value;
    var a := p[..i] + v;
    var rest := p[j + 1..];
    assert ReplaceFirst(p, v) == a + rest;
    forall k | 0 <= k < |a| ensures a[k] != '{' {
      if k >= i { assert a[k] == v[k - i]; }
    }
    PlaceholdersBehind(a, rest);
    PlaceholdersAt(p, i, j, rest);
  }

  /** Text in front of a string never removes one of its tokens: a token
      that begins in the front text ends at the string's first `}`, which is
      where the string's own first token, if it has one there, ends too. */
  lemma {:induction false} PlaceholdersGrowWithPrefix(x: string, r: string)
    ensures Placeholders(x + r) >= Placeholders(r)
    decreases |x|
  {
    var s := x + r;
    var f := FindPlaceholder(s);
    if f.None? {
      forall a, b | 0 <= a < b < |r| && r[a] == '{' ensures r[b] != '}' {
        assert s[|x| + a] == r[a] && s[|x| + b] == r[b];
      }
      FindPlaceholderNone(r);
    } else {
      var (i, j) := f.value;
      PlaceholdersAt(s, i, j, s[j + 1..]);
      if i >= |x| {
        forall k | 0 <= k < |x| ensures x[k] != '{' {
          assert s[k] == x[k];
        }
        PlaceholdersBehind(x, r);
      } else if j < |x| {
        assert s[j + 1..] == x[j + 1..] + r;
        PlaceholdersGrowWithPrefix(x[j + 1..], r);
      } else {
        var m := j - |x|;
        forall k | 0 <= k < m ensures r[k] != '}' {
          assert r[k] == s[|x| + k];
        }
        assert s[j + 1..] == r[m + 1..];
        PlaceholdersAfterClose(r, m);
      }
    }
  }

  /** Counting from the first `}` of r loses at most one token. */
  lemma PlaceholdersAfterClose(r: string, m: nat)
    requires m < |r| && r[m] == '}'
    requires forall k :: 0 <= k < m ==> r[k] != '}'
    ensures Placeholders(r) <= 1 + Placeholders(r[m + 1..])
  {
    var f := FindPlaceholder(r);
    if f.Some? {
      var (i, j) := f.value;
      if i < m {
        assert j == m;
        PlaceholdersAt(r, i, m, r[m + 1..]);
      } else {
        assert r == r[..m + 1] + r[m + 1..];
        PlaceholdersBehind(r[..m + 1], r[m + 1..]);
      }
    }
  }

  /** One step fills at most one of the tokens, whatever the value. */
  lemma ReplaceFirstKeepsOthers(p: string, v: string)
    requires FindPlaceholder(p).Some?
    ensures Placeholders(ReplaceFirst(p, v)) >= Placeholders(p) - 1
  {
    var i, j := FindPlaceholder(p).value.0, FindPlaceholder(p).value.1;
    ReplaceFirstAt(p, v, i, j);
    PlaceholdersAt(p, i, j, p[j + 1..]);
    PlaceholdersGrowWithPrefix(p[..i] + v, p[j + 1..]);
  }

  /** With no more values than tokens in p, the text after p is never
      touched: the trailing tokens remain, whatever the values contain. */
  lemma {:induction false} TrailingTextUntouched(p: string, q: string, values: seq<string>)
    requires |values| <= Placeholders(p)
    ensures FillAll(p + q, values) == FillAll(p, values) + q
    decreases |values|
  {
    if values != [] {
      assert FindPlaceholder(p).Some?;
      ReplaceFirstPrefix(p, q, values[0]);
      ReplaceFirstKeepsOthers(p, values[0]);
      TrailingTextUntouched(ReplaceFirst(p, values[0]), q, values[1..]);
    }
  }

  /** Each brace-free value fills one token; the rest are left for later. */
  lemma {:induction false} FillCount(s: string, values: seq<string>)
    requires forall k :: 0 <= k < |values| ==> BraceFree(values[k])
    requires |values| <= Placeholders(s)
    ensures Placeholders(FillAll(s, values)) == Placeholders(s) - |values|
    decreases |values|
  {
    if values != [] {
      assert FindPlaceholder(s).Some?;
      ReplaceFirstConsumesOne(s, values[0]);
      FillCount(ReplaceFirst(s, values[0]), values[1..]);
    }
  }

  /** Every step searches the whole current string, so a token that an
      earlier value brought in is filled by the next one: with the values
      "{n}" and w, the template a{m}z becomes a w z. */
  lemma InsertedTokenIsFilledNext(a: string, m: string, n: string, z: string, w: string)
    requires forall k :: 0 <= k < |a| ==> a[k] != '{'
    requires forall k :: 0 <= k < |m| ==> m[k] != '}'
    requires forall k :: 0 <= k < |n| ==> n[k] != '}'
    ensures FillAll(a + "{" + m + "}" + z, ["{" + n + "}", w]) == a + w + z
  {
    var s, t := a + "{" + m + "}" + z, "{" + n + "}";
    FillAllTwo(s, t, w);
    ReplaceFirstSplit(a, m, z, t);
    TokenConcat(a, n, z);
    ReplaceFirstSplit(a, n, z, w);
  }

  lemma TokenConcat(a: string, n: string, z: string)
    ensures a + ("{" + n + "}") + z == a + "{" + n + "}" + z
  {
  }

  /** Two values are two steps. */
  lemma FillAllTwo(s: string, u: string, v: string)
    ensures FillAll(s, [u, v]) == ReplaceFirst(ReplaceFirst(s, u), v)
  {
    var t := ReplaceFirst(s, u);
    assert [u, v][0] == u && [u, v][1..] == [v];
    assert FillAll(s, [u, v]) == FillAll(t, [v]);
    assert [v][0] == v && [v][1..] == [];
    assert FillAll(t, [v]) == FillAll(ReplaceFirst(t, v), []);
  }
}
