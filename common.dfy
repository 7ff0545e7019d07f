/** Shared vocabulary of the model: optional values, thrown errors, document
    identifiers, JavaScript truthiness of strings and the two list operations
    (filtering, prefix tests) the source uses everywhere. */
module Common {

  /** A value that may be `null` in the source. */
  datatype Option<+T> = None | Some(value: T)

  /** The outcome of a call that may throw an `Error` with a message. */
  datatype Result<+T> = Ok(value: T) | Err(message: string)

  /** A document identifier, as the string form of a database object id. */
  type Id = string

    /** JavaScript's `\s`: the ASCII whitespace controls, space, and the
      Unicode space separators, line and paragraph separators and the byte
      order mark. */
  predicate IsSpace(c: char)
  {
    var n := c as int;
    (9 <= n <= 13) || n == 0x20 || n == 0xA0 || n == 0x1680 || (0x2000 <= n <= 0x200A)
    || n == 0x2028 || n == 0x2029 || n == 0x202F || n == 0x205F || n == 0x3000 || n == 0xFEFF
  }

  /** The number of whitespace characters `trim` removes from the front. */
  function LeadingSpaces(s: string): (k: nat)
    ensures k <= |s|
    ensures forall i :: 0 <= i < k ==> IsSpace(s[i])
    ensures k < |s| ==> !IsSpace(s[k])
  {
    if s == [] || !IsSpace(s[0]) then 0
    else
      var k := LeadingSpaces(s[1..]);
      assert forall i :: 1 <= i <= k ==> s[i] == s[1..][i - 1];
      1 + k
  }

  /** The number of whitespace characters `trim` removes from the end. */
  function TrailingSpaces(s: string): (k: nat)
    ensures k <= |s|
    ensures forall i :: |s| - k <= i < |s| ==> IsSpace(s[i])
    ensures k < |s| ==> !IsSpace(s[|s| - k - 1])
  {
    if s == [] || !IsSpace(s[|s| - 1]) then 0
    else
      var k := TrailingSpaces(s[..|s| - 1]);
      assert forall i :: 0 <= i < |s| - 1 ==> s[i] == s[..|s| - 1][i];
      1 + k
  }

  /** `String.prototype.trim`: the string without its leading and trailing
      whitespace, which is the schemas' `trim: true` setter. */
  function Trim(s: string): (t: string)
    ensures t == [] <==> forall i :: 0 <= i < |s| ==> IsSpace(s[i])
    ensures t != [] ==> !IsSpace(t[0]) && !IsSpace(t[|t| - 1])
    ensures var a := LeadingSpaces(s);
            a + |t| <= |s| && t == s[a..a + |t|] && forall i :: a + |t| <= i < |s| ==> IsSpace(s[i])
  {
    var a := LeadingSpaces(s);
    if a == |s| then
      assert s[0..0] == [];
      []
    else
      var b := TrailingSpaces(s);
      assert a < |s| - b;
      var t := s[a..|s| - b];
      t
  }

  /** Trimming twice is trimming once. */
  lemma TrimIdempotent(s: string)
    ensures Trim(Trim(s)) == Trim(s)
  {
    var t := Trim(s);
    if t != [] {
      var u := Trim(t);
      assert LeadingSpaces(t) == 0;
      assert TrailingSpaces(t) == 0;
    }
  }

  /** A request field read from a JSON body or a query string: absent
      (`undefined`/`null`) or a string. */
  predicate Present(field: Option<string>)
  {
    field.Some? && field.value != ""  // JavaScript treats "" as falsy
  }

  /** `s.startsWith(prefix)`. */
  predicate StartsWith(s: string, prefix: string)
  {
    |prefix| <= |s| && s[..|prefix|] == prefix
  }

  /** `Array.prototype.filter`: the elements of `s` that satisfy `keep`, in order. */
  function Filter<T(!new)>(s: seq<T>, keep: T -> bool): (r: seq<T>)
    ensures |r| <= |s|
    ensures forall x :: x in r <==> x in s && keep(x)
    ensures multiset(r) <= multiset(s)
  {
    if s == [] then []
    else
      assert s == [s[0]] + s[1..];
      (if keep(s[0]) then [s[0]] else []) + Filter(s[1..], keep)
  }

  /** Filtering keeps the order: the filter of a concatenation is the
      concatenation of the filters. */
  lemma {:induction false} FilterAppend<T(!new)>(a: seq<T>, b: seq<T>, keep: T -> bool)
    ensures Filter(a + b, keep) == Filter(a, keep) + Filter(b, keep)
  {
    if a == [] {
      assert a + b == b;
    } else {
      var h := if keep(a[0]) then [a[0]] else [];
      AppendTail(a, b);
      FilterHead(a + b, keep);
      FilterHead(a, keep);
      FilterAppend(a[1..], b, keep);
      AppendAssociates(h, Filter(a[1..], keep), Filter(b, keep));
    }
  }

  /** One step of the filter. */
  lemma FilterHead<T(!new)>(s: seq<T>, keep: T -> bool)
    requires s != []
    ensures Filter(s, keep) == (if keep(s[0]) then [s[0]] else []) + Filter(s[1..], keep)
  {
  }

  lemma AppendTail<T>(a: seq<T>, b: seq<T>)
    requires a != []
    ensures (a + b)[0] == a[0] && (a + b)[1..] == a[1..] + b
  {
  }

  lemma HeadSplits<T>(s: seq<T>)
    requires s != []
    ensures multiset(s) == multiset([s[0]]) + multiset(s[1..])
  {
    assert s == [s[0]] + s[1..];
  }

  lemma AppendAssociates<T>(h: seq<T>, u: seq<T>, v: seq<T>)
    ensures h + (u + v) == (h + u) + v
  {
  }

  /** Filtering keeps every copy of a passing element and no copy of any
      other. */
  lemma {:induction false} FilterCounts<T(!new)>(s: seq<T>, keep: T -> bool, x: T)
    ensures multiset(Filter(s, keep))[x] == if keep(x) then multiset(s)[x] else 0
  {
    if s != [] {
      FilterCounts(s[1..], keep, x);
      FilterHead(s, keep);
      HeadSplits(s);
    }
  }

  /** The counting statement for every element at once. */
  lemma FilterCountsAll<T(!new)>(s: seq<T>, keep: T -> bool)
    ensures forall x :: multiset(Filter(s, keep))[x] == if keep(x) then multiset(s)[x] else 0
  {
    forall x
      ensures multiset(Filter(s, keep))[x] == if keep(x) then multiset(s)[x] else 0
    {
      FilterCounts(s, keep, x);
    }
  }

  /** Filtering with a test no element passes leaves nothing. */
  lemma {:induction false} FilterNone<T(!new)>(s: seq<T>, keep: T -> bool)
    requires forall i :: 0 <= i < |s| ==> !keep(s[i])
    ensures Filter(s, keep) == []
  {
    if s != [] {
      FilterNone(s[1..], keep);
    }
  }

  /** `Array.prototype.some`: some element of `s` satisfies `test`. */
  predicate Any<T>(s: seq<T>, test: T -> bool)
  {
    exists i :: 0 <= i < |s| && test(s[i])
  }
}
