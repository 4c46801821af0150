/**
 * The parts of Go's `strings` package that the exporter relies on, on
 * `seq<char>`.  Go strings are UTF-8 byte strings; here a string is the
 * sequence of its decoded characters.
 */
module GoStrings {

  /** `unicode.IsSpace`: the separators `strings.Fields` and `strings.TrimSpace` use. */
  predicate IsSpace(c: char) {
    || c == ' ' || c == '\t' || c == '\n' || c == '\U{000B}' || c == '\U{000C}' || c == '\r'
    || c == '\U{0085}' || c == '\U{00A0}' || c == '\U{1680}'
    || ('\U{2000}' <= c <= '\U{200A}')
    || c == '\U{2028}' || c == '\U{2029}' || c == '\U{202F}' || c == '\U{205F}' || c == '\U{3000}'
  }

  predicate IsDigit(c: char) {
    '0' <= c <= '9'
  }

  /** Every character of `s` satisfies `p`. */
  predicate All(s: string, p: char -> bool) {
    forall i | 0 <= i < |s| :: p(s[i])
  }

  /** No character of `s` is a space. */
  predicate NoSpace(s: string) {
    forall i | 0 <= i < |s| :: !IsSpace(s[i])
  }

  /** `strings.TrimLeftFunc`: drop the longest prefix whose characters satisfy `p`. */
  function TrimLeft(s: string, p: char -> bool): (r: string)
    ensures |r| <= |s|
    ensures r == [] || !p(r[0])
    decreases |s|
  {
    if s != [] && p(s[0]) then TrimLeft(s[1..], p) else s
  }

  /** `strings.TrimRightFunc`: drop the longest suffix whose characters satisfy `p`. */
  function TrimRight(s: string, p: char -> bool): (r: string)
    ensures |r| <= |s|
    ensures r == [] || !p(r[|r| - 1])
    decreases |s|
  {
    if s != [] && p(s[|s| - 1]) then TrimRight(s[..|s| - 1], p) else s
  }

  /** What `TrimLeft` keeps is a suffix of its input. */
  lemma {:induction false} TrimLeftSuffix(s: string, p: char -> bool)
    ensures TrimLeft(s, p) == s[|s| - |TrimLeft(s, p)|..]
    decreases |s|
  {
    if s != [] && p(s[0]) {
      TrimLeftSuffix(s[1..], p);
      assert s[1..][|s| - 1 - |TrimLeft(s, p)|..] == s[|s| - |TrimLeft(s, p)|..];
    }
  }

  /** What `TrimRight` keeps is a prefix of its input. */
  lemma {:induction false} TrimRightPrefix(s: string, p: char -> bool)
    ensures TrimRight(s, p) == s[..|TrimRight(s, p)|]
    decreases |s|
  {
    if s != [] && p(s[|s| - 1]) {
      TrimRightPrefix(s[..|s| - 1], p);
      assert s[..|s| - 1][..|TrimRight(s, p)|] == s[..|TrimRight(s, p)|];
    }
  }

  /** What `TrimLeft` drops consists of `p` characters only. */
  lemma {:induction false} TrimLeftDropped(s: string, p: char -> bool)
    ensures All(s[..|s| - |TrimLeft(s, p)|], p)
    decreases |s|
  {
    if s != [] && p(s[0]) {
      TrimLeftDropped(s[1..], p);
      var k := |s| - |TrimLeft(s, p)|;
      forall i | 0 <= i < k ensures p(s[..k][i]) {
        if i > 0 {
          assert s[..k][i] == s[1..][..k - 1][i - 1];
        }
      }
    }
  }

  /** What `TrimRight` drops consists of `p` characters only. */
  lemma {:induction false} TrimRightDropped(s: string, p: char -> bool)
    ensures All(s[|TrimRight(s, p)|..], p)
    decreases |s|
  {
    if s != [] && p(s[|s| - 1]) {
      var s' := s[..|s| - 1];
      TrimRightDropped(s', p);
      var k := |TrimRight(s, p)|;
      forall i | 0 <= i < |s| - k ensures p(s[k..][i]) {
        if k + i < |s| - 1 {
          assert s[k..][i] == s'[k..][i];
        }
      }
    }
  }

  /** `strings.TrimFunc`: drop both. */
  function Trim(s: string, p: char -> bool): (r: string)
  {
    TrimRight(TrimLeft(s, p), p)
  }

  /** `strings.TrimSpace`. */
  function TrimSpace(s: string): (r: string)
  {
    Trim(s, IsSpace)
  }

  /** Trimming is complete: nothing more to trim at either end, and what was cut consists of `p` characters. */
  lemma TrimShape(s: string, p: char -> bool)
    ensures var r := Trim(s, p);
            exists i, j | 0 <= i <= j <= |s| :: r == s[i..j] && All(s[..i], p) && All(s[j..], p)
    ensures var r := Trim(s, p); r == [] || (!p(r[0]) && !p(r[|r| - 1]))
  {
    var l := TrimLeft(s, p);
    TrimLeftDropped(s, p);
    TrimRightDropped(l, p);
    TrimLeftSuffix(s, p);
    TrimRightPrefix(l, p);
    InfixShape(s, l, TrimRight(l, p), p);
  }

  /** A prefix `r` of a suffix `l` of `s`, with only `p` characters cut away on either side. */
  lemma InfixShape(s: string, l: string, r: string, p: char -> bool)
    requires |l| <= |s| && l == s[|s| - |l|..] && All(s[..|s| - |l|], p)
    requires |r| <= |l| && r == l[..|r|] && All(l[|r|..], p)
    requires l == [] || !p(l[0])
    requires r == [] || !p(r[|r| - 1])
    ensures exists i, j | 0 <= i <= j <= |s| :: r == s[i..j] && All(s[..i], p) && All(s[j..], p)
    ensures r == [] || (!p(r[0]) && !p(r[|r| - 1]))
  {
    var i := |s| - |l|;
    var j := i + |r|;
    assert r == s[i..j];
    assert s[j..] == l[|r|..];
    if r != [] {
      assert r[0] == l[0];
    }
  }

  /** Trimming twice is trimming once. */
  lemma TrimIdempotent(s: string, p: char -> bool)
    ensures Trim(Trim(s, p), p) == Trim(s, p)
  {
    var r := Trim(s, p);
    TrimShape(s, p);
    if r != [] {
      assert TrimLeft(r, p) == r;
      assert TrimRight(r, p) == r;
    }
  }

  /** Trimming `p` characters around a word that neither starts nor ends with one gives the word. */
  lemma TrimOf(a: string, w: string, b: string, p: char -> bool)
    requires All(a, p) && All(b, p)
    requires w != [] && !p(w[0]) && !p(w[|w| - 1])
    ensures Trim(a + w + b, p) == w
  {
    TrimLeftAll(a, w + b, p);
    assert a + w + b == a + (w + b);
    TrimRightAll(w, b, p);
  }

  lemma {:induction false} TrimLeftAll(a: string, s: string, p: char -> bool)
    requires All(a, p)
    requires s != [] && !p(s[0])
    ensures TrimLeft(a + s, p) == s
    decreases |a|
  {
    if a == [] {
      assert a + s == s;
    } else {
      assert (a + s)[0] == a[0];
      assert (a + s)[1..] == a[1..] + s;
      assert All(a[1..], p) by {
        forall i | 0 <= i < |a| - 1 ensures p(a[1..][i]) { assert a[1..][i] == a[i + 1]; }
      }
      TrimLeftAll(a[1..], s, p);
    }
  }

  lemma {:induction false} TrimRightAll(s: string, b: string, p: char -> bool)
    requires All(b, p)
    requires s != [] && !p(s[|s| - 1])
    ensures TrimRight(s + b, p) == s
    decreases |b|
  {
    if b == [] {
      assert s + b == s;
    } else {
      var b' := b[..|b| - 1];
      assert (s + b)[|s + b| - 1] == b[|b| - 1];
      assert (s + b)[..|s + b| - 1] == s + b';
      assert All(b', p) by {
        forall i | 0 <= i < |b'| ensures p(b'[i]) { assert b'[i] == b[i]; }
      }
      TrimRightAll(s, b', p);
    }
  }

  function HasPrefix(s: string, prefix: string): bool {
    |prefix| <= |s| && s[..|prefix|] == prefix
  }

  function HasSuffix(s: string, suffix: string): bool {
    |suffix| <= |s| && s[|s| - |suffix|..] == suffix
  }

  /** `strings.TrimPrefix`. */
  function TrimPrefix(s: string, prefix: string): (r: string)
    ensures HasPrefix(s, prefix) ==> s == prefix + r
    ensures !HasPrefix(s, prefix) ==> r == s
  {
    if HasPrefix(s, prefix) then s[|prefix|..] else s
  }

  /** `strings.TrimSuffix`. */
  function TrimSuffix(s: string, suffix: string): (r: string)
    ensures HasSuffix(s, suffix) ==> s == r + suffix
    ensures !HasSuffix(s, suffix) ==> r == s
  {
    if HasSuffix(s, suffix) then s[..|s| - |suffix|] else s
  }

  /** `sub` occurs in `s` starting at position `k`. */
  predicate OccursAt(s: string, sub: string, k: nat) {
    k + |sub| <= |s| && s[k..k + |sub|] == sub
  }

  /** `strings.Contains`: true exactly when `sub` occurs somewhere in `s`. */
  function Contains(s: string, sub: string): (r: bool)
    ensures HasPrefix(s, sub) ==> r
    ensures r <==> exists k: nat :: OccursAt(s, sub, k)
    decreases |s|
  {
    if HasPrefix(s, sub) then
      assert OccursAt(s, sub, 0);
      true
    else if s == [] then
      false
    else
      OccursShift(s, sub);
      Contains(s[1..], sub)
  }

  /** An occurrence after the first character of `s` is an occurrence in `s[1..]`, one place earlier. */
  lemma OccursShift(s: string, sub: string)
    requires s != []
    ensures forall k: nat | OccursAt(s[1..], sub, k) :: OccursAt(s, sub, k + 1)
    ensures forall k: nat | 1 <= k && OccursAt(s, sub, k) :: OccursAt(s[1..], sub, k - 1)
  {
    forall k: nat | OccursAt(s[1..], sub, k) ensures OccursAt(s, sub, k + 1) {
      SliceShift(s, k, |sub|);
    }
    forall k: nat | 1 <= k && OccursAt(s, sub, k) ensures OccursAt(s[1..], sub, k - 1) {
      SliceShift(s, k - 1, |sub|);
    }
  }

  lemma SliceShift(s: string, k: nat, n: nat)
    requires s != [] && k + n <= |s| - 1
    ensures s[1..][k..k + n] == s[k + 1..k + 1 + n]
  {
    var a, b := s[1..][k..k + n], s[k + 1..k + 1 + n];
    forall i | 0 <= i < n ensures a[i] == b[i] {
    }
  }

  /** `unicode.ToLower` restricted to ASCII letters. */
  function LowerChar(c: char): char {
    if 'A' <= c <= 'Z' then (c as int + 32) as char else c
  }

  predicate IsUpper(c: char) {
    'A' <= c <= 'Z'
  }

  /** `prefix + a` and `prefix + b` differ when `a` and `b` differ at a position both have. */
  lemma SuffixedApart(prefix: string, a: string, b: string, k: nat)
    requires k < |a| && k < |b| && a[k] != b[k]
    ensures prefix + a != prefix + b
  {
    assert (prefix + a)[|prefix| + k] == a[k];
    assert (prefix + b)[|prefix| + k] == b[k];
  }

  /** `strings.ToLower`. */
  function ToLower(s: string): (r: string)
    ensures |r| == |s|
  {
    if s == [] then [] else [LowerChar(s[0])] + ToLower(s[1..])
  }

  /** Lower-casing works character by character and leaves no upper-case letter. */
  lemma {:induction false} ToLowerChars(s: string)
    ensures forall i | 0 <= i < |s| :: ToLower(s)[i] == LowerChar(s[i])
    ensures forall i | 0 <= i < |s| :: !IsUpper(ToLower(s)[i])
    decreases |s|
  {
    if s != [] {
      ToLowerChars(s[1..]);
      assert forall i | 1 <= i < |s| :: ToLower(s)[i] == ToLower(s[1..])[i - 1];
    }
  }

  lemma {:induction false} ToLowerAppend(a: string, b: string)
    ensures ToLower(a + b) == ToLower(a) + ToLower(b)
    decreases |a|
  {
    if a == [] {
      assert a + b == b;
    } else {
      assert (a + b)[0] == a[0];
      assert (a + b)[1..] == a[1..] + b;
      ToLowerAppend(a[1..], b);
    }
  }

  /** A string without upper-case letters is its own lower-case form. */
  lemma ToLowerNoUpper(s: string)
    requires forall i | 0 <= i < |s| :: !IsUpper(s[i])
    ensures ToLower(s) == s
  {
    ToLowerChars(s);
  }

  /** `strings.ReplaceAll` for a one-character pattern and replacement. */
  function ReplaceChar(s: string, from: char, to: char): (r: string)
    ensures |r| == |s|
    ensures forall i | 0 <= i < |s| :: r[i] == (if s[i] == from then to else s[i])
  {
    if s == [] then [] else [if s[0] == from then to else s[0]] + ReplaceChar(s[1..], from, to)
  }

  /** Position of the first `c` in `s`. */
  function IndexOf(s: string, c: char): (i: nat)
    requires c in s
    ensures i < |s| && s[i] == c && c !in s[..i]
  {
    if s[0] == c then 0 else 1 + IndexOf(s[1..], c)
  }

  /** `strings.Join`. */
  function Join(parts: seq<string>, sep: string): string
  {
    if |parts| == 0 then ""
    else if |parts| == 1 then parts[0]
    else parts[0] + sep + Join(parts[1..], sep)
  }

  /** `strings.Split` for a one-character separator. */
  function Split(s: string, sep: char): (r: seq<string>)
    ensures |r| >= 1
    ensures forall k | 0 <= k < |r| :: sep !in r[k]
    decreases |s|
  {
    if sep !in s then [s]
    else
      var i := IndexOf(s, sep);
      [s[..i]] + Split(s[i + 1..], sep)
  }

  /** Splitting loses nothing: joining the pieces back gives the input. */
  lemma {:induction false} JoinSplit(s: string, sep: char)
    ensures Join(Split(s, sep), [sep]) == s
    decreases |s|
  {
    if sep in s {
      var i := IndexOf(s, sep);
      var rest := Split(s[i + 1..], sep);
      assert Split(s, sep) == [s[..i]] + rest;
      JoinSplit(s[i + 1..], sep);
      JoinCons(s[..i], rest, [sep]);
      assert s == s[..i] + [sep] + s[i + 1..];
    }
  }

  /** A join of a first piece and a non-empty rest: the piece, the separator, then the rest joined. */
  lemma JoinCons(w: string, rest: seq<string>, sep: string)
    requires rest != []
    ensures Join([w] + rest, sep) == w + sep + Join(rest, sep)
  {
    assert ([w] + rest)[1..] == rest;
  }


  /** Joining pieces that do not contain the separator and splitting again gives the pieces back. */
  lemma {:induction false} SplitJoin(parts: seq<string>, sep: char)
    requires |parts| >= 1
    requires forall k | 0 <= k < |parts| :: sep !in parts[k]
    ensures Split(Join(parts, [sep]), sep) == parts
    decreases |parts|
  {
    if |parts| > 1 {
      var rest := Join(parts[1..], [sep]);
      SplitJoin(parts[1..], sep);
      SplitCons(parts[0], sep, rest);
      assert parts == [parts[0]] + parts[1..];
    }
  }

  /** Split consumes the text up to the first separator as one piece. */
  lemma SplitCons(a: string, sep: char, b: string)
    requires sep !in a
    ensures Split(a + [sep] + b, sep) == [a] + Split(b, sep)
  {
    var s := a + [sep] + b;
    assert s[|a|] == sep;
    assert s[..|a|] == a;
    assert IndexOf(s, sep) == |a|;
    assert s[|a| + 1..] == b;
  }

  /** `strings.SplitN(s, string(sep), 2)`: the text before the first separator and, if there is one, the rest. */
  function Cut(s: string, sep: char): (r: seq<string>)
    ensures 1 <= |r| <= 2
    ensures |r| == 1 <==> sep !in s
    ensures |r| == 1 ==> r[0] == s
    ensures |r| == 2 ==> s == r[0] + [sep] + r[1] && sep !in r[0]
  {
    if sep in s then
      var i := IndexOf(s, sep);
      assert s == s[..i] + [sep] + s[i + 1..];
      [s[..i], s[i + 1..]]
    else [s]
  }

  /** `Cut` splits at the first separator. */
  lemma CutAt(a: string, sep: char, b: string)
    requires sep !in a
    ensures Cut(a + [sep] + b, sep) == [a, b]
  {
    var s := a + [sep] + b;
    assert s[|a|] == sep;
    assert s[..|a|] == a;
    assert IndexOf(s, sep) == |a|;
    assert s[|a| + 1..] == b;
  }

  /** The longest prefix of `s` without spaces. */
  function Word(s: string): (r: string)
    ensures |r| <= |s| && NoSpace(r)
    ensures |r| == |s| || IsSpace(s[|r|])
    decreases |s|
  {
    if s == [] || IsSpace(s[0]) then [] else [s[0]] + Word(s[1..])
  }

  /** `strings.Fields`: the maximal runs of non-space characters, in order. */
  function Fields(s: string): (r: seq<string>)
    ensures forall k | 0 <= k < |r| :: r[k] != [] && NoSpace(r[k])
    decreases |s|
  {
    if s == [] then []
    else if IsSpace(s[0]) then Fields(s[1..])
    else
      var w := Word(s);
      [w] + Fields(s[|w|..])
  }

  /** Leading spaces do not change the fields. */
  lemma {:induction false} FieldsSkipSpace(sp: string, s: string)
    requires All(sp, IsSpace)
    ensures Fields(sp + s) == Fields(s)
    decreases |sp|
  {
    if sp == [] {
      assert sp + s == s;
    } else {
      assert IsSpace(sp[0]);
      assert (sp + s)[0] == sp[0];
      assert All(sp[1..], IsSpace) by {
        forall i | 0 <= i < |sp| - 1 ensures IsSpace(sp[1..][i]) { assert sp[1..][i] == sp[i + 1]; }
      }
      assert (sp + s)[1..] == sp[1..] + s;
      FieldsSkipSpace(sp[1..], s);
    }
  }

  /** A word followed by a space (or by nothing) is the first field. */
  lemma FieldsCons(w: string, rest: string)
    requires w != [] && NoSpace(w)
    requires rest == [] || IsSpace(rest[0])
    ensures Fields(w + rest) == [w] + Fields(rest)
  {
    var s := w + rest;
    assert s[0] == w[0];
    WordPrefix(w, rest);
    assert s[|w|..] == rest;
  }

  lemma {:induction false} WordPrefix(w: string, rest: string)
    requires NoSpace(w)
    requires rest == [] || IsSpace(rest[0])
    ensures Word(w + rest) == w
    decreases |w|
  {
    if w == [] {
      assert w + rest == rest;
    } else {
      assert (w + rest)[1..] == w[1..] + rest;
      WordPrefix(w[1..], rest);
    }
  }

  /** Words joined by single spaces split back into the same words. */
  lemma {:induction false} FieldsJoin(ws: seq<string>)
    requires forall k | 0 <= k < |ws| :: ws[k] != [] && NoSpace(ws[k])
    ensures Fields(Join(ws, " ")) == ws
    decreases |ws|
  {
    if |ws| == 0 {
    } else if |ws| == 1 {
      FieldsCons(ws[0], "");
      assert ws[0] + "" == ws[0];
    } else {
      var rest := Join(ws[1..], " ");
      FieldsJoin(ws[1..]);
      assert ws[0] + " " + rest == ws[0] + (" " + rest);
      FieldsCons(ws[0], " " + rest);
      FieldsSkipSpace(" ", rest);
    }
  }
}
