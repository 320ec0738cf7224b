/** The parameter dictionaries the OAuth session signs and sends, and the
    normalised parameter string of its signature base
    (`GenerateNormalizedParametersString`). */
module Parameters {
  import opened Wrappers
  import opened Strings
  import opened PercentEncoding

  /** A dictionary value (C# `object`): a string, or any other object such as an
      `HttpContent` upload part, which is described by its type name. */
  datatype Value = Text(text: string) | Binary(typeName: string)

  /** One key/value pair of a dictionary. */
  type Entry = (string, Value)

  /** `string.Format("{0}", value)`: a string is itself, another object its type name. */
  function Display(v: Value): string
  {
    match v
    case Text(s) => s
    case Binary(t) => t
  }

  function KeysOf(entries: seq<Entry>): (keys: seq<string>)
    ensures |keys| == |entries|
    ensures forall i :: 0 <= i < |entries| ==> keys[i] == entries[i].0
  {
    if entries == [] then [] else [entries[0].0] + KeysOf(entries[1..])
  }

  /** The keys of a dictionary are distinct. */
  ghost predicate DistinctKeys(entries: seq<Entry>)
  {
    forall i, j :: 0 <= i < j < |entries| ==> entries[i].0 != entries[j].0
  }

  /** The entries whose key differs from `k`, in their order. */
  function RemoveKey(entries: seq<Entry>, k: string): (r: seq<Entry>)
    ensures |r| <= |entries|
  {
    if entries == [] then []
    else (if entries[0].0 == k then [] else [entries[0]]) + RemoveKey(entries[1..], k)
  }

  /** `RemoveKey` drops exactly the entries with key `k`. */
  lemma {:induction false} RemoveKeyMembers(entries: seq<Entry>, k: string)
    ensures forall e :: e in RemoveKey(entries, k) <==> e in entries && e.0 != k
  {
    if entries != [] {
      RemoveKeyMembers(entries[1..], k);
      assert entries == [entries[0]] + entries[1..];
    }
  }

  /** A mutable `Dictionary<string, object>`; enumeration follows `entries`. */
  class Dict {
    var entries: seq<Entry>

    ghost predicate Valid()
      reads this
    {
      DistinctKeys(entries)
    }

    constructor ()
      ensures Valid() && entries == []
    {
      entries := [];
    }

    /** `Dictionary.Add`: refuses (ArgumentException) a key that is already present. */
    method Add(k: string, v: Value) returns (added: bool)
      requires Valid()
      modifies this
      ensures Valid()
      ensures added <==> k !in KeysOf(old(entries))
      ensures entries == if added then old(entries) + [(k, v)] else old(entries)
    {
      added := k !in KeysOf(entries);
      if added {
        entries := entries + [(k, v)];
      }
    }

    /** `Dictionary.Remove`. */
    method Remove(k: string)
      requires Valid()
      modifies this
      ensures Valid()
      ensures entries == RemoveKey(old(entries), k)
    {
      entries := RemoveKey(entries, k);
      forall i, j | 0 <= i < j < |entries| ensures entries[i].0 != entries[j].0 {
        RemoveKeyKeepsOrder(old(entries), k, i, j);
      }
    }
  }

  /** Two entries of RemoveKey(s, k) come from two entries of `s` in the same order. */
  lemma {:induction false} RemoveKeyKeepsOrder(s: seq<Entry>, k: string, i: nat, j: nat)
    requires DistinctKeys(s)
    requires i < j < |RemoveKey(s, k)|
    ensures RemoveKey(s, k)[i].0 != RemoveKey(s, k)[j].0
  {
    var r := RemoveKey(s, k);
    var tail := RemoveKey(s[1..], k);
    assert DistinctKeys(s[1..]);
    if s[0].0 == k {
      assert r == tail;
      RemoveKeyKeepsOrder(s[1..], k, i, j);
    } else {
      assert r == [s[0]] + tail;
      if i == 0 {
        assert r[j] in tail;
        RemoveKeyMembers(s[1..], k);
        assert r[j] in s[1..];
      } else {
        RemoveKeyKeepsOrder(s[1..], k, i - 1, j - 1);
      }
    }
  }

  // ---------------------------------------------------------------------------
  // Key order of a SortedDictionary

  /** The comparer of a `SortedDictionary<string, object>` orders keys strictly and totally. */
  ghost predicate IsStrictTotalOrder(less: (string, string) -> bool)
  {
    && (forall a :: !less(a, a))
    && (forall a, b, c :: less(a, b) && less(b, c) ==> less(a, c))
    && (forall a, b :: a != b ==> less(a, b) || less(b, a))
  }

  /** Keys strictly ascending. */
  ghost predicate SortedByKey(entries: seq<Entry>, less: (string, string) -> bool)
  {
    forall i, j :: 0 <= i < j < |entries| ==> less(entries[i].0, entries[j].0)
  }

  function InsertByKey(e: Entry, s: seq<Entry>, less: (string, string) -> bool): seq<Entry>
  {
    if s == [] then [e]
    else if less(e.0, s[0].0) then [e] + s
    else [s[0]] + InsertByKey(e, s[1..], less)
  }

  /** The entries in the order a SortedDictionary built from them enumerates them. */
  function SortByKey(s: seq<Entry>, less: (string, string) -> bool): seq<Entry>
  {
    if s == [] then [] else InsertByKey(s[0], SortByKey(s[1..], less), less)
  }

  lemma {:induction false} InsertByKeyPermutation(e: Entry, s: seq<Entry>, less: (string, string) -> bool)
    ensures multiset(InsertByKey(e, s, less)) == multiset(s) + multiset{e}
  {
    if s != [] && !less(e.0, s[0].0) {
      InsertByKeyPermutation(e, s[1..], less);
      assert s == [s[0]] + s[1..];
      assert multiset(s) == multiset{s[0]} + multiset(s[1..]);
    }
  }

  lemma InsertByKeySortedFront(e: Entry, s: seq<Entry>, less: (string, string) -> bool)
    requires IsStrictTotalOrder(less)
    requires SortedByKey(s, less)
    requires s != [] && less(e.0, s[0].0)
    ensures SortedByKey([e] + s, less)
  {
    var r := [e] + s;
    forall i, j | 0 <= i < j < |r| ensures less(r[i].0, r[j].0) {
      if i == 0 {
        assert r[j] == s[j - 1];
        if j > 1 {
          assert less(s[0].0, s[j - 1].0);
        }
      } else {
        assert r[i] == s[i - 1] && r[j] == s[j - 1];
      }
    }
  }

  lemma SortedCons(x: Entry, t: seq<Entry>, less: (string, string) -> bool)
    requires SortedByKey(t, less)
    requires forall k :: 0 <= k < |t| ==> less(x.0, t[k].0)
    ensures SortedByKey([x] + t, less)
  {
    var r := [x] + t;
    forall i, j | 0 <= i < j < |r| ensures less(r[i].0, r[j].0) {
      if i == 0 {
        assert r[j] == t[j - 1];
      } else {
        assert r[i] == t[i - 1] && r[j] == t[j - 1];
      }
    }
  }

  /** A key below `e`'s and below every key of `s` is below every key of a
      permutation of `s` with `e` added. */
  lemma LowerBoundPermutation(lo: string, e: Entry, s: seq<Entry>, t: seq<Entry>, less: (string, string) -> bool)
    requires less(lo, e.0)
    requires forall m :: 0 <= m < |s| ==> less(lo, s[m].0)
    requires multiset(t) == multiset(s) + multiset{e}
    ensures forall k :: 0 <= k < |t| ==> less(lo, t[k].0)
  {
    forall k | 0 <= k < |t| ensures less(lo, t[k].0) {
      assert t[k] in multiset(t);
      if t[k] != e {
        assert t[k] in multiset(s);
        var m :| 0 <= m < |s| && s[m] == t[k];
      }
    }
  }

  lemma {:induction false} InsertByKeySorted(e: Entry, s: seq<Entry>, less: (string, string) -> bool)
    requires IsStrictTotalOrder(less)
    requires SortedByKey(s, less)
    requires e.0 !in KeysOf(s)
    ensures SortedByKey(InsertByKey(e, s, less), less)
  {
    if s == [] {
    } else if less(e.0, s[0].0) {
      InsertByKeySortedFront(e, s, less);
    } else {
      assert e.0 != KeysOf(s)[0];
      assert less(s[0].0, e.0);
      assert e.0 !in KeysOf(s[1..]) by {
        forall k | 0 <= k < |s[1..]| ensures s[1..][k].0 != e.0 {
          assert s[1..][k].0 == KeysOf(s)[k + 1];
        }
      }
      assert SortedByKey(s[1..], less);
      InsertByKeySorted(e, s[1..], less);
      InsertByKeyPermutation(e, s[1..], less);
      var t := InsertByKey(e, s[1..], less);
      LowerBoundPermutation(s[0].0, e, s[1..], t, less);
      SortedCons(s[0], t, less);
    }
  }

  /** A key that no entry of `s` has is not a key of any permutation of `s`. */
  lemma KeyAbsentFromPermutation(k: string, s: seq<Entry>, t: seq<Entry>)
    requires forall m :: 0 <= m < |s| ==> s[m].0 != k
    requires multiset(t) == multiset(s)
    ensures k !in KeysOf(t)
  {
    forall i | 0 <= i < |t| ensures t[i].0 != k {
      assert t[i] in multiset(s);
      var m :| 0 <= m < |s| && s[m] == t[i];
    }
  }

  /** Sorting yields the same entries with strictly ascending keys. */
  lemma {:induction false} SortByKeyCorrect(s: seq<Entry>, less: (string, string) -> bool)
    requires IsStrictTotalOrder(less)
    requires DistinctKeys(s)
    ensures multiset(SortByKey(s, less)) == multiset(s)
    ensures SortedByKey(SortByKey(s, less), less)
  {
    if s != [] {
      var tail := s[1..];
      assert DistinctKeys(tail) by {
        forall i, j | 0 <= i < j < |tail| ensures tail[i].0 != tail[j].0 {
          assert tail[i] == s[i + 1] && tail[j] == s[j + 1];
        }
      }
      assert forall m :: 0 <= m < |tail| ==> tail[m].0 != s[0].0 by {
        forall m | 0 <= m < |tail| ensures tail[m].0 != s[0].0 {
          assert tail[m] == s[m + 1];
        }
      }
      SortByKeyCorrect(tail, less);
      var t := SortByKey(tail, less);
      assert SortByKey(s, less) == InsertByKey(s[0], t, less);
      KeyAbsentFromPermutation(s[0].0, tail, t);
      InsertByKeySorted(s[0], t, less);
    }
    SortByKeyPermutation(s, less);
  }

  /** There is one sorted arrangement of a set of entries. */
  lemma {:induction false} SortedUnique(a: seq<Entry>, b: seq<Entry>, less: (string, string) -> bool)
    requires IsStrictTotalOrder(less)
    requires SortedByKey(a, less) && SortedByKey(b, less)
    requires multiset(a) == multiset(b)
    ensures a == b
  {
    if a != [] {
      SortedHeadsEqual(a, b, less);
      MultisetTail(a);
      MultisetTail(b);
      SortedTail(a, less);
      SortedTail(b, less);
      SortedUnique(a[1..], b[1..], less);
      assert a == [a[0]] + a[1..] && b == [b[0]] + b[1..];
    } else {
      assert |multiset(b)| == |b|;
    }
  }

  lemma MultisetTail(a: seq<Entry>)
    requires a != []
    ensures multiset(a[1..]) == multiset(a) - multiset{a[0]}
  {
    assert a == [a[0]] + a[1..];
  }

  lemma SortedTail(a: seq<Entry>, less: (string, string) -> bool)
    requires SortedByKey(a, less) && a != []
    ensures SortedByKey(a[1..], less)
  {
    forall i, j | 0 <= i < j < |a[1..]| ensures less(a[1..][i].0, a[1..][j].0) {
      assert a[1..][i] == a[i + 1] && a[1..][j] == a[j + 1];
    }
  }

  /** Two sorted arrangements of the same entries start alike. */
  lemma SortedHeadsEqual(a: seq<Entry>, b: seq<Entry>, less: (string, string) -> bool)
    requires IsStrictTotalOrder(less)
    requires SortedByKey(a, less) && SortedByKey(b, less)
    requires multiset(a) == multiset(b) && a != []
    ensures b != [] && a[0] == b[0]
  {
    assert a[0] in multiset(b);
    assert b != [] && b[0] in multiset(a);
    var i :| 0 <= i < |b| && b[i] == a[0];
    var j :| 0 <= j < |a| && a[j] == b[0];
  }

  // ---------------------------------------------------------------------------
  // The normalised parameter string

  /** The string-valued entries, as (key, text) pairs, in order. */
  function TextPairs(entries: seq<Entry>): seq<(string, string)>
  {
    if entries == [] then []
    else (if entries[0].1.Text? then [(entries[0].0, entries[0].1.text)] else []) + TextPairs(entries[1..])
  }

  /** `key=escape(value)`: the key itself is not escaped. */
  function EncodedPair(p: (string, string)): string
  {
    p.0 + "=" + Escape(p.1)
  }

  function EncodedPairs(ps: seq<(string, string)>): (r: seq<string>)
    ensures |r| == |ps|
    ensures forall i :: 0 <= i < |ps| ==> r[i] == EncodedPair(ps[i])
  {
    if ps == [] then [] else [EncodedPair(ps[0])] + EncodedPairs(ps[1..])
  }

  /** The normalised parameter string: the string-valued entries in ascending key
      order, as `key=escape(value)`, separated by '&'. */
  function Normalize(entries: seq<Entry>, less: (string, string) -> bool): string
  {
    Join(EncodedPairs(TextPairs(SortByKey(entries, less))), "&")
  }

  /** `GenerateNormalizedParametersString` as written: None stands for the
      ArgumentOutOfRangeException of `sb.Remove(-1, 1)` when the dictionary is not
      empty but holds no string value. */
  function GenerateNormalizedParametersString(parameters: Option<seq<Entry>>, less: (string, string) -> bool): Option<string>
  {
    if parameters.None? || |parameters.value| == 0 then Some("")
    else
      var built := Terminated(EncodedPairs(TextPairs(SortByKey(parameters.value, less))), "&");
      if |built| == 0 then None else Some(built[..|built| - 1])
  }

  /** Whether some entry holds a string. */
  predicate HasText(entries: seq<Entry>)
  {
    exists i :: 0 <= i < |entries| && entries[i].1.Text?
  }

  lemma {:induction false} TextPairsMembers(entries: seq<Entry>, k: string, v: string)
    ensures (k, v) in TextPairs(entries) <==> (k, Text(v)) in entries
  {
    if entries != [] {
      TextPairsMembers(entries[1..], k, v);
      assert entries == [entries[0]] + entries[1..];
    }
  }

  lemma {:induction false} TextPairsEmpty(entries: seq<Entry>)
    ensures TextPairs(entries) == [] <==> !HasText(entries)
  {
    if entries != [] {
      TextPairsEmpty(entries[1..]);
      if HasText(entries) && !entries[0].1.Text? {
        var i :| 0 <= i < |entries| && entries[i].1.Text?;
        assert entries[1..][i - 1].1.Text?;
      }
      if HasText(entries[1..]) {
        var i :| 0 <= i < |entries[1..]| && entries[1..][i].1.Text?;
        assert entries[i + 1].1.Text?;
      }
    }
  }

  lemma HasTextPermutation(a: seq<Entry>, b: seq<Entry>)
    requires multiset(a) == multiset(b)
    requires HasText(a)
    ensures HasText(b)
  {
    var i :| 0 <= i < |a| && a[i].1.Text?;
    assert a[i] in multiset(b);
    var j :| 0 <= j < |b| && b[j] == a[i];
  }

  /** The as-written normaliser agrees with `Normalize` on a null or empty
      dictionary and on every dictionary that holds a string value. */
  lemma NormalizeAsWrittenAgrees(parameters: Option<seq<Entry>>, less: (string, string) -> bool)
    requires parameters.None? || |parameters.value| == 0 || HasText(parameters.value)
    ensures GenerateNormalizedParametersString(parameters, less)
         == Some(if parameters.None? then "" else Normalize(parameters.value, less))
  {
    if parameters.Some? && |parameters.value| > 0 {
      var s := parameters.value;
      SortByKeyPermutation(s, less);
      HasTextPermutation(s, SortByKey(s, less));
      TextPairsEmpty(SortByKey(s, less));
      var parts := EncodedPairs(TextPairs(SortByKey(s, less)));
      TerminatedIsJoinPlusSep(parts, "&");
      var built := Terminated(parts, "&");
      assert built[..|built| - 1] == Join(parts, "&");
    }
  }

  /** The as-written normaliser throws on a non-empty dictionary without string values. */
  lemma NormalizeAsWrittenFails(s: seq<Entry>, less: (string, string) -> bool)
    requires |s| > 0 && !HasText(s)
    ensures GenerateNormalizedParametersString(Some(s), less) == None
  {
    SortByKeyPermutation(s, less);
    if HasText(SortByKey(s, less)) {
      HasTextPermutation(SortByKey(s, less), s);
    }
    TextPairsEmpty(SortByKey(s, less));
  }

  /** Without a string value the corrected normaliser yields the empty string. */
  lemma NormalizeNoText(s: seq<Entry>, less: (string, string) -> bool)
    requires !HasText(s)
    ensures Normalize(s, less) == ""
  {
    SortByKeyPermutation(s, less);
    if HasText(SortByKey(s, less)) {
      HasTextPermutation(SortByKey(s, less), s);
    }
    TextPairsEmpty(SortByKey(s, less));
  }

  /** Sorting by key, under any comparer, permutes the entries. */
  lemma {:induction false} SortByKeyPermutation(s: seq<Entry>, less: (string, string) -> bool)
    ensures multiset(SortByKey(s, less)) == multiset(s)
  {
    if s != [] {
      SortByKeyPermutation(s[1..], less);
      InsertByKeyPermutation(s[0], SortByKey(s[1..], less), less);
      assert s == [s[0]] + s[1..];
    }
  }

  /** The normalised string depends only on the set of entries, not on the
      dictionary's enumeration order. */
  lemma NormalizeOrderIndependent(a: seq<Entry>, b: seq<Entry>, less: (string, string) -> bool)
    requires IsStrictTotalOrder(less)
    requires DistinctKeys(a) && DistinctKeys(b)
    requires multiset(a) == multiset(b)
    ensures Normalize(a, less) == Normalize(b, less)
  {
    SortByKeyCorrect(a, less);
    SortByKeyCorrect(b, less);
    SortedUnique(SortByKey(a, less), SortByKey(b, less), less);
  }

  // ---------------------------------------------------------------------------
  // Reading a normalised string back

  /** Splits `key=escaped` at its first '=' and unescapes the value. */
  function ParsePair(p: string): Option<(string, string)>
  {
    var (k, rest) := SplitFirst(p, '=');
    if rest.None? then None
    else match Unescape(rest.value)
      case None => None
      case Some(v) => Some((k, v))
  }

  function ParsePairs(ps: seq<string>): Option<seq<(string, string)>>
  {
    if ps == [] then Some([])
    else
      var head := ParsePair(ps[0]);
      var tail := ParsePairs(ps[1..]);
      if head.Some? && tail.Some? then Some([head.value] + tail.value) else None
  }

  /** Reads a '&'-separated list of `key=escaped` pairs; "" is the empty list. */
  function ParseQuery(s: string): Option<seq<(string, string)>>
  {
    if s == "" then Some([]) else ParsePairs(Split(s, '&'))
  }

  lemma {:induction false} SplitFirstAt(p: string, c: char, rest: string)
    requires c !in p
    ensures SplitFirst(p + [c] + rest, c) == (p, Some(rest))
  {
    if p != [] {
      SplitFirstAt(p[1..], c, rest);
      assert (p + [c] + rest)[1..] == p[1..] + [c] + rest;
      assert [p[0]] + p[1..] == p;
    } else {
      assert p + [c] + rest == [c] + rest;
    }
  }

  lemma ParseEncodedPair(p: (string, string))
    requires '=' !in p.0
    ensures ParsePair(EncodedPair(p)) == Some(p)
  {
    SplitFirstAt(p.0, '=', Escape(p.1));
    assert EncodedPair(p) == p.0 + ['='] + Escape(p.1);
    UnescapeEscape(p.1);
  }

  lemma ParsePairsCons(ps: seq<string>)
    requires ps != []
    ensures ParsePairs(ps) == if ParsePair(ps[0]).Some? && ParsePairs(ps[1..]).Some?
      then Some([ParsePair(ps[0]).value] + ParsePairs(ps[1..]).value) else None
  {
  }

  lemma {:induction false} ParseEncodedPairs(ps: seq<(string, string)>)
    requires forall i :: 0 <= i < |ps| ==> '=' !in ps[i].0
    ensures ParsePairs(EncodedPairs(ps)) == Some(ps)
  {
    if ps != [] {
      var e := EncodedPairs(ps);
      assert ParsePair(e[0]) == Some(ps[0]) by {
        assert e[0] == EncodedPair(ps[0]);
        ParseEncodedPair(ps[0]);
      }
      assert ParsePairs(e[1..]) == Some(ps[1..]) by {
        assert e[1..] == EncodedPairs(ps[1..]);
        ParseEncodedPairs(ps[1..]);
      }
      ParsePairsCons(e);
      assert ps == [ps[0]] + ps[1..];
    }
  }

  /** Keys that survive the normalised string unambiguously. */
  predicate PlainKeys(entries: seq<Entry>)
  {
    forall i :: 0 <= i < |entries| && entries[i].1.Text? ==> '&' !in entries[i].0 && '=' !in entries[i].0
  }

  lemma {:induction false} PlainKeysTextPairs(entries: seq<Entry>)
    requires PlainKeys(entries)
    ensures forall i :: 0 <= i < |TextPairs(entries)| ==> '&' !in TextPairs(entries)[i].0 && '=' !in TextPairs(entries)[i].0
  {
    if entries != [] {
      assert PlainKeys(entries[1..]) by {
        forall i | 0 <= i < |entries[1..]| && entries[1..][i].1.Text? ensures '&' !in entries[1..][i].0 && '=' !in entries[1..][i].0 {
          assert entries[1..][i] == entries[i + 1];
        }
      }
      PlainKeysTextPairs(entries[1..]);
    }
  }

  lemma PlainKeysPermutation(a: seq<Entry>, b: seq<Entry>)
    requires multiset(a) == multiset(b)
    requires PlainKeys(a)
    ensures PlainKeys(b)
  {
    forall j | 0 <= j < |b| && b[j].1.Text? ensures '&' !in b[j].0 && '=' !in b[j].0 {
      assert b[j] in multiset(a);
      var i :| 0 <= i < |a| && a[i] == b[j];
    }
  }

  /** Ascending keys, for (key, text) pairs. */
  ghost predicate PairsAscending(ps: seq<(string, string)>, less: (string, string) -> bool)
  {
    forall i, j :: 0 <= i < j < |ps| ==> less(ps[i].0, ps[j].0)
  }

  lemma {:induction false} TextPairsAscending(entries: seq<Entry>, less: (string, string) -> bool)
    requires SortedByKey(entries, less)
    ensures PairsAscending(TextPairs(entries), less)
  {
    if entries != [] {
      TextPairsAscending(entries[1..], less);
      var tail := TextPairs(entries[1..]);
      forall p | p in tail ensures less(entries[0].0, p.0) {
        TextPairsMembers(entries[1..], p.0, p.1);
        var i :| 0 <= i < |entries[1..]| && entries[1..][i] == (p.0, Text(p.1));
        assert entries[i + 1] == entries[1..][i];
      }
    }
  }

  /** The normalised string reads back as exactly the string-valued entries, each
      once, with their values, in strictly ascending key order (when no such key
      contains '&' or '='). */
  lemma NormalizeReadsBack(entries: seq<Entry>, less: (string, string) -> bool)
    requires IsStrictTotalOrder(less)
    requires DistinctKeys(entries)
    requires PlainKeys(entries)
    ensures ParseQuery(Normalize(entries, less)).Some?
    ensures var ps := ParseQuery(Normalize(entries, less)).value;
      && PairsAscending(ps, less)
      && (forall k, v :: (k, v) in ps <==> (k, Text(v)) in entries)
  {
    var sorted := SortByKey(entries, less);
    SortByKeyCorrect(entries, less);
    PlainKeysPermutation(entries, sorted);
    PlainKeysTextPairs(sorted);
    TextPairsAscending(sorted, less);
    var ps := TextPairs(sorted);
    ParseEncodedPairs(ps);
    if ps != [] {
      var parts := EncodedPairs(ps);
      forall i | 0 <= i < |parts| ensures '&' !in parts[i] {
        EscapeAlphabet(ps[i].1);
      }
      SplitJoin(parts, '&');
      assert Join(parts, "&") != "" by {
        assert '=' in parts[0];
        if |parts| > 1 {
          assert Join(parts, "&") == parts[0] + "&" + Join(parts[1..], "&");
        }
      }
    }
    forall k, v ensures (k, v) in ps <==> (k, Text(v)) in entries {
      TextPairsMembers(sorted, k, v);
      assert (k, Text(v)) in multiset(sorted) <==> (k, Text(v)) in multiset(entries);
    }
  }

  /** Keys are written unescaped, so a key holding '=' and '&' produces the same
      normalised string as two different entries. */
  lemma NormalizeKeyCollision(less: (string, string) -> bool)
    requires IsStrictTotalOrder(less)
    requires less("a", "b")
    ensures Normalize([("a=1&b", Text("2"))], less) == Normalize([("a", Text("1")), ("b", Text("2"))], less)
  {
    assert Escape("1") == "1" && Escape("2") == "2" by {
      EscapeIdentityIff("1");
      EscapeIdentityIff("2");
    }
    NormalizeTwoEntries(less);
    NormalizeOneEntry(less);
  }

  lemma NormalizeTwoEntries(less: (string, string) -> bool)
    requires IsStrictTotalOrder(less)
    requires less("a", "b")
    requires Escape("1") == "1" && Escape("2") == "2"
    ensures Normalize([("a", Text("1")), ("b", Text("2"))], less) == "a=1&b=2"
  {
    var two: seq<Entry> := [("a", Text("1")), ("b", Text("2"))];
    assert SortByKey(two[1..], less) == [("b", Text("2"))];
    assert SortByKey(two, less) == two;
    assert TextPairs(two) == [("a", "1"), ("b", "2")];
    assert EncodedPair(("a", "1")) == "a=1";
    assert EncodedPair(("b", "2")) == "b=2";
    assert EncodedPairs([("a", "1"), ("b", "2")]) == ["a=1", "b=2"];
    assert Join(["a=1", "b=2"], "&") == "a=1" + "&" + "b=2";
  }

  lemma NormalizeOneEntry(less: (string, string) -> bool)
    requires Escape("2") == "2"
    ensures Normalize([("a=1&b", Text("2"))], less) == "a=1&b=2"
  {
    var one: seq<Entry> := [("a=1&b", Text("2"))];
    assert TextPairs(one) == [("a=1&b", "2")];
    assert EncodedPair(("a=1&b", "2")) == "a=1&b=2";
    assert EncodedPairs([("a=1&b", "2")]) == ["a=1&b=2"];
  }

}
