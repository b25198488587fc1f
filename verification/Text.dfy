/** Byte strings and the standard-library string helpers the sources call.
    A `string` stands for a byte string: one `char` for one byte. */
module Text {
  datatype Option<+T> = None | Some(value: T)

  datatype Result<+T, +E> = Ok(value: T) | Err(error: E)

  /** Go's strings.HasPrefix, and C++'s substr(0, n) == prefix. */
  predicate HasPrefix(s: string, prefix: string) { prefix <= s }

  /** Go's strings.CutPrefix. */
  function CutPrefix(s: string, prefix: string): (r: Option<string>)
    ensures r.Some? <==> prefix <= s
    ensures r.Some? ==> s == prefix + r.value
  {
    if prefix <= s then Some(s[|prefix|..]) else None
  }

  lemma CutPrefixOf(prefix: string, rest: string)
    ensures CutPrefix(prefix + rest, prefix) == Some(rest)
  {
    assert (prefix + rest)[..|prefix|] == prefix;
  }

  /** The index of the first `c` in `s`, or |s|. */
  function IndexOf(s: string, c: char): (i: nat)
    ensures i <= |s| && c !in s[..i]
    ensures i < |s| ==> s[i] == c
  {
    if s == "" then 0
    else if s[0] == c then 0
    else
      var i := IndexOf(s[1..], c);
      assert s[..i + 1] == [s[0]] + s[1..][..i];
      i + 1
  }

  /** Go's strings.Cut and Rust's split_once on a one-byte separator. */
  function Cut(s: string, sep: char): (r: Option<(string, string)>)
    ensures r.Some? <==> sep in s
    ensures r.Some? ==> s == r.value.0 + [sep] + r.value.1 && sep !in r.value.0
  {
    var i := IndexOf(s, sep);
    if i < |s| then
      assert s == s[..i] + [s[i]] + s[i + 1..];
      Some((s[..i], s[i + 1..]))
    else
      assert s[..i] == s;
      None
  }

  /** A separator that the left part does not contain is where Cut splits. */
  lemma CutAt(left: string, sep: char, right: string)
    requires sep !in left
    ensures Cut(left + [sep] + right, sep) == Some((left, right))
  {
    var s := left + [sep] + right;
    var i := IndexOf(s, sep);
    assert s[|left|] == sep;
    assert s[..|left|] == left;
    assert i <= |left|;
    assert s[..i] == left && s[i + 1..] == right;
  }

  /** ASCII white space: what Go's strings.TrimSpace and Rust's trim remove. */
  predicate IsSpace(c: char) { c in " \t\n\r" || c as int == 11 || c as int == 12 }

  function TrimLeft(s: string): string {
    if s != "" && IsSpace(s[0]) then TrimLeft(s[1..]) else s
  }

  function TrimRight(s: string): string {
    if s != "" && IsSpace(s[|s| - 1]) then TrimRight(s[..|s| - 1]) else s
  }

  function Trim(s: string): string { TrimRight(TrimLeft(s)) }

  /** Trimming keeps a string whose two ends are not white space. */
  lemma TrimNothing(s: string)
    requires s == "" || (!IsSpace(s[0]) && !IsSpace(s[|s| - 1]))
    ensures Trim(s) == s
  {}

  predicate AllSpace(s: string) { forall c :: c in s ==> IsSpace(c) }

  /** What Trim does: white space at either end goes, and nothing else. */
  lemma TrimAround(left: string, s: string, right: string)
    requires AllSpace(left) && AllSpace(right) && (s == "" || (!IsSpace(s[0]) && !IsSpace(s[|s| - 1])))
    ensures Trim(left + s + right) == s
  {
    Assoc3(left, s, right);
    TrimLeftSkips(left, s + right);
    if s == "" {
      assert s + right == right && right + "" == right;
      TrimLeftSkips(right, "");
    } else {
      TrimRightSkips(s, right);
    }
  }

  lemma {:induction false} TrimLeftSkips(left: string, t: string)
    requires AllSpace(left)
    ensures TrimLeft(left + t) == TrimLeft(t)
  {
    if left == "" {
      assert left + t == t;
    } else {
      assert left[0] in left && (left + t)[1..] == left[1..] + t;
      assert forall c :: c in left[1..] ==> c in left;
      TrimLeftSkips(left[1..], t);
    }
  }

  lemma {:induction false} TrimRightSkips(s: string, right: string)
    requires AllSpace(right) && s != "" && !IsSpace(s[|s| - 1])
    ensures TrimRight(s + right) == s
  {
    if right == "" {
      assert s + right == s;
    } else {
      var front := right[..|right| - 1];
      assert right[|right| - 1] in right && (s + right)[..|s + right| - 1] == s + front;
      assert forall c :: c in front ==> c in right;
      TrimRightSkips(s, front);
    }
  }

  lemma Assoc3<T>(a: seq<T>, b: seq<T>, c: seq<T>)
    ensures a + b + c == a + (b + c)
  {}

  /** The first `n` elements, or all of them when there are fewer. */
  function First<T>(s: seq<T>, n: nat): seq<T> { if |s| > n then s[..n] else s }

  /** What follows the first `n` elements. */
  function After<T>(s: seq<T>, n: nat): (r: seq<T>)
    ensures s != [] && n > 0 ==> |r| < |s|
  {
    if |s| > n then s[n..] else []
  }

  lemma AfterAfter<T>(s: seq<T>, i: nat, n: nat)
    ensures After(After(s, i), n) == After(s, i + n)
  {}

  /** Concatenation of the pieces, in order. */
  function Flatten<T>(parts: seq<seq<T>>): seq<T> {
    if parts == [] then [] else parts[0] + Flatten(parts[1..])
  }

  lemma {:induction false} FlattenSnoc<T>(parts: seq<seq<T>>, last: seq<T>)
    ensures Flatten(parts + [last]) == Flatten(parts) + last
  {
    if parts == [] {
      assert parts + [last] == [last];
    } else {
      assert (parts + [last])[1..] == parts[1..] + [last];
      FlattenSnoc(parts[1..], last);
    }
  }
}
