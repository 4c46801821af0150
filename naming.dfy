/**
 * Metric names: `normalizeMetricName` cleans a counter name read from a
 * table row, `buildMetricName` turns a prefix, a name and an optional
 * sub-row index into the name a value is stored under.
 */
module Naming {
  import opened Wrappers
  import opened GoStrings
  import opened Strconv

  /** The characters `normalizeMetricName` strips: underscore, dot and space. */
  predicate IsJunk(c: char) {
    c == '_' || c == '.' || c == ' '
  }

  /** `normalizeMetricName`: `strings.Trim(name, "_. ")`. */
  function NormalizeMetricName(name: string): string
  {
    Trim(name, IsJunk)
  }

  /**
   * The normalised name is the input with a run of junk characters removed
   * at each end, and no junk character is left at either end.
   */
  lemma NormalizeShape(name: string)
    ensures var r := NormalizeMetricName(name);
            exists i, j | 0 <= i <= j <= |name| ::
              r == name[i..j] && All(name[..i], IsJunk) && All(name[j..], IsJunk)
    ensures var r := NormalizeMetricName(name);
            r == [] || (!IsJunk(r[0]) && !IsJunk(r[|r| - 1]))
  {
    TrimShape(name, IsJunk);
  }

  /** Normalising a normalised name changes nothing. */
  lemma NormalizeIdempotent(name: string)
    ensures NormalizeMetricName(NormalizeMetricName(name)) == NormalizeMetricName(name)
  {
    TrimIdempotent(name, IsJunk);
  }

  /** Junk around a word that neither starts nor ends with junk is exactly what goes. */
  lemma NormalizeOf(before: string, word: string, after: string)
    requires All(before, IsJunk) && All(after, IsJunk)
    requires word != [] && !IsJunk(word[0]) && !IsJunk(word[|word| - 1])
    ensures NormalizeMetricName(before + word + after) == word
  {
    TrimOf(before, word, after, IsJunk);
  }

  /** A name made only of junk normalises to the empty name. */
  lemma NormalizeAllJunk(name: string)
    requires All(name, IsJunk)
    ensures NormalizeMetricName(name) == ""
  {
    NormalizeShape(name);
  }

  /** `prefix_name`, or just `name` when there is no prefix. */
  function Qualified(prefix: string, name: string): string
  {
    if prefix != "" then prefix + "_" + name else name
  }

  /** The `{idx="N"}` label of a sub-row, empty without an index. */
  function IdxLabel(idx: Option<nat>): string
  {
    match idx
    case None => ""
    case Some(i) => "{idx=\"" + NatToDecimal(i) + "\"}"
  }

  /** `buildMetricName`: the lower-cased qualified name, then the index label. */
  function BuildMetricName(prefix: string, name: string, idx: Option<nat>): string
  {
    ToLower(Qualified(prefix, name)) + IdxLabel(idx)
  }

  /** The name lower-cases prefix and name separately and joins them with `_`. */
  lemma BuildMetricNameParts(prefix: string, name: string, idx: Option<nat>)
    ensures prefix != "" ==>
      BuildMetricName(prefix, name, idx) == ToLower(prefix) + "_" + ToLower(name) + IdxLabel(idx)
    ensures prefix == "" ==>
      BuildMetricName(prefix, name, idx) == ToLower(name) + IdxLabel(idx)
  {
    if prefix != "" {
      ToLowerAppend(prefix + "_", name);
      ToLowerAppend(prefix, "_");
    }
  }

  /** A lower-case prefix is kept verbatim at the front, followed by `_`. */
  lemma BuildMetricNameHasPrefix(prefix: string, name: string, idx: Option<nat>)
    requires prefix != ""
    requires forall i | 0 <= i < |prefix| :: !IsUpper(prefix[i])
    ensures HasPrefix(BuildMetricName(prefix, name, idx), prefix + "_")
  {
    BuildMetricNameParts(prefix, name, idx);
    ToLowerNoUpper(prefix);
    PrefixOfConcat(prefix + "_", ToLower(name) + IdxLabel(idx));
  }

  lemma PrefixOfConcat(head: string, tail: string)
    ensures HasPrefix(head + tail, head)
  {
    assert (head + tail)[..|head|] == head;
  }

  /** No label character is an upper-case letter. */
  lemma IdxLabelNoUpper(idx: Option<nat>)
    ensures forall i | 0 <= i < |IdxLabel(idx)| :: !IsUpper(IdxLabel(idx)[i])
  {
    if idx.Some? {
      var d := NatToDecimal(idx.value);
      var open := "{idx=\"";
      var close := "\"}";
      assert forall i | 0 <= i < |open| :: !IsUpper(open[i]);
      assert forall i | 0 <= i < |d| :: IsDigit(d[i]);
      assert IdxLabel(idx) == open + d + close;
    }
  }

  /** Metric names never hold an upper-case letter. */
  lemma BuildMetricNameLower(prefix: string, name: string, idx: Option<nat>)
    ensures var r := BuildMetricName(prefix, name, idx);
            forall i | 0 <= i < |r| :: !IsUpper(r[i])
  {
    var q := ToLower(Qualified(prefix, name));
    ToLowerChars(Qualified(prefix, name));
    IdxLabelNoUpper(idx);
    var r := BuildMetricName(prefix, name, idx);
    forall i | 0 <= i < |r| ensures !IsUpper(r[i]) {
      if i >= |q| {
        assert r[i] == IdxLabel(idx)[i - |q|];
      }
    }
  }

  /** Lower-casing twice is lower-casing once. */
  lemma ToLowerTwice(s: string)
    ensures ToLower(ToLower(s)) == ToLower(s)
  {
    ToLowerChars(s);
    ToLowerNoUpper(ToLower(s));
  }

  /** The case of prefix and name does not matter. */
  lemma BuildMetricNameCaseInsensitive(prefix: string, name: string, idx: Option<nat>)
    ensures BuildMetricName(ToLower(prefix), ToLower(name), idx) == BuildMetricName(prefix, name, idx)
  {
    BuildMetricNameParts(prefix, name, idx);
    BuildMetricNameParts(ToLower(prefix), ToLower(name), idx);
    ToLowerTwice(prefix);
    ToLowerTwice(name);
  }

  /** What stands before the lower-cased name: the lower-cased prefix and `_`, or nothing. */
  function LowerHead(prefix: string): string
  {
    if prefix != "" then ToLower(prefix) + "_" else ""
  }

  /** A metric name is the head, the lower-cased name and the index label, in that order. */
  lemma BuildMetricNameSplit(prefix: string, name: string, idx: Option<nat>)
    ensures BuildMetricName(prefix, name, idx) == LowerHead(prefix) + ToLower(name) + IdxLabel(idx)
  {
    BuildMetricNameParts(prefix, name, idx);
    if prefix == "" {
      assert LowerHead(prefix) + ToLower(name) == ToLower(name);
    }
  }

  /** Equal concatenations around the same head and tail have equal middles. */
  lemma MiddleInjective(head: string, a: string, b: string, tail: string)
    requires head + a + tail == head + b + tail
    ensures a == b
  {
    var s := head + a + tail;
    assert |a| == |b|;
    assert a == s[|head|..|head| + |a|];
    assert b == (head + b + tail)[|head|..|head| + |b|];
  }

  /** With the same prefix and index, equal metric names come from names equal up to case. */
  lemma BuildMetricNameInjective(prefix: string, name1: string, name2: string, idx: Option<nat>)
    requires BuildMetricName(prefix, name1, idx) == BuildMetricName(prefix, name2, idx)
    ensures ToLower(name1) == ToLower(name2)
  {
    BuildMetricNameSplit(prefix, name1, idx);
    BuildMetricNameSplit(prefix, name2, idx);
    MiddleInjective(LowerHead(prefix), ToLower(name1), ToLower(name2), IdxLabel(idx));
  }

  /**
   * Names of the same length that differ, up to case, at one position give
   * different metric names, whatever their indices.
   */
  lemma BuildMetricNameDiffer(prefix: string, name1: string, name2: string, idx1: Option<nat>, idx2: Option<nat>, k: nat)
    requires |name1| == |name2| && k < |name1|
    requires LowerChar(name1[k]) != LowerChar(name2[k])
    ensures BuildMetricName(prefix, name1, idx1) != BuildMetricName(prefix, name2, idx2)
  {
    var head := LowerHead(prefix);
    var lq1 := ToLower(name1);
    var lq2 := ToLower(name2);
    assert lq1[k] != lq2[k] by {
      ToLowerChars(name1);
      ToLowerChars(name2);
    }
    BuildMetricNameSplit(prefix, name1, idx1);
    BuildMetricNameSplit(prefix, name2, idx2);
    MiddleAt(head, lq1, IdxLabel(idx1), k);
    MiddleAt(head, lq2, IdxLabel(idx2), k);
  }

  /** Position `k` of the middle part of a concatenation. */
  lemma MiddleAt(head: string, mid: string, tail: string, k: nat)
    requires k < |mid|
    ensures (head + mid + tail)[|head| + k] == mid[k]
  {
  }

  /** Equal concatenations behind the same head have equal tails. */
  lemma HeadCancel(head: string, a: string, b: string)
    requires head + a == head + b
    ensures a == b
  {
    assert a == (head + a)[|head|..];
    assert b == (head + b)[|head|..];
  }

  /** Different indices have different labels. */
  lemma IdxLabelInjective(i: nat, j: nat)
    requires IdxLabel(Some(i)) == IdxLabel(Some(j))
    ensures i == j
  {
    MiddleInjective("{idx=\"", NatToDecimal(i), NatToDecimal(j), "\"}");
    NatToDecimalInjective(i, j);
  }

  /** Two different sub-row indices give two different metric names. */
  lemma BuildMetricNameIdxInjective(prefix: string, name: string, i: nat, j: nat)
    requires BuildMetricName(prefix, name, Some(i)) == BuildMetricName(prefix, name, Some(j))
    ensures i == j
  {
    HeadCancel(ToLower(Qualified(prefix, name)), IdxLabel(Some(i)), IdxLabel(Some(j)));
    IdxLabelInjective(i, j);
  }

  /** The same name with and without an index never gives the same metric: the label makes it longer. */
  lemma BuildMetricNameIdxPresent(prefix: string, name: string, i: nat)
    ensures BuildMetricName(prefix, name, None) != BuildMetricName(prefix, name, Some(i))
  {
    assert |IdxLabel(Some(i))| > 0;
  }
}
