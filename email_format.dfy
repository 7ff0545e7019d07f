/** The email format test shared by registration and login: the regular
    expression `^[^\s@]+@[^\s@]+\.[^\s@]+$`. */
module EmailFormat {
  import opened Common

  /** `[^\s@]+`: a non-empty run free of whitespace and `@`. */
  predicate Chunk(t: string)
  {
    |t| > 0 && forall i :: 0 <= i < |t| ==> !IsSpace(t[i]) && t[i] != '@'
  }

  /** The regular expression read literally: the whole string splits into a
      chunk, `@`, a chunk, `.`, and a chunk. */
  ghost predicate MatchesEmailPattern(s: string)
  {
    exists i, j :: 0 <= i < j < |s| && s[i] == '@' && s[j] == '.'
                   && Chunk(s[..i]) && Chunk(s[i + 1..j]) && Chunk(s[j + 1..])
  }

  /** The same test in plain words: no whitespace, exactly one `@` and not
      at the start, and a `.` in the domain part that is neither its first
      nor its last character. */
  predicate IsValidEmail(s: string)
  {
    (forall k :: 0 <= k < |s| ==> !IsSpace(s[k]))
    && exists i :: 0 < i < |s| && s[i] == '@'
                   && (forall k :: 0 <= k < |s| && k != i ==> s[k] != '@')
                   && exists j :: i + 1 < j < |s| - 1 && s[j] == '.'
  }

  /** A slice is a chunk exactly when it is non-empty and each of its
      characters is neither whitespace nor `@`. */
  lemma SliceChunk(s: string, a: nat, b: nat)
    requires a < b <= |s|
    ensures Chunk(s[a..b]) <==> forall k :: a <= k < b ==> !IsSpace(s[k]) && s[k] != '@'
  {
    if Chunk(s[a..b]) {
      forall k | a <= k < b ensures !IsSpace(s[k]) && s[k] != '@' {
        assert s[k] == s[a..b][k - a];
      }
    }
  }

  /** A split the regular expression accepts passes the plain test. */
  lemma PatternIsValid(s: string, i: nat, j: nat)
    requires i < j < |s| && s[i] == '@' && s[j] == '.'
    requires Chunk(s[..i]) && Chunk(s[i + 1..j]) && Chunk(s[j + 1..])
    ensures IsValidEmail(s)
  {
    assert s[..i] == s[0..i] && s[j + 1..] == s[j + 1..|s|];
    SliceChunk(s, 0, i);
    SliceChunk(s, i + 1, j);
    SliceChunk(s, j + 1, |s|);
    assert forall k :: 0 <= k < |s| ==> !IsSpace(s[k]) && (k != i ==> s[k] != '@');
    assert i + 1 < j < |s| - 1;
  }

  /** The positions the plain test finds split the string as the regular
      expression wants. */
  lemma ValidIsPattern(s: string, i: nat, j: nat)
    requires forall k :: 0 <= k < |s| ==> !IsSpace(s[k])
    requires 0 < i < |s| && s[i] == '@' && forall k :: 0 <= k < |s| && k != i ==> s[k] != '@'
    requires i + 1 < j < |s| - 1 && s[j] == '.'
    ensures Chunk(s[..i]) && Chunk(s[i + 1..j]) && Chunk(s[j + 1..])
  {
    assert s[..i] == s[0..i] && s[j + 1..] == s[j + 1..|s|];
    SliceChunk(s, 0, i);
    SliceChunk(s, i + 1, j);
    SliceChunk(s, j + 1, |s|);
  }

  /** The plain reading accepts exactly the strings the regular expression
      matches. */
  lemma EmailTestMatchesPattern(s: string)
    ensures IsValidEmail(s) <==> MatchesEmailPattern(s)
  {
    if MatchesEmailPattern(s) {
      var i, j :| 0 <= i < j < |s| && s[i] == '@' && s[j] == '.'
                  && Chunk(s[..i]) && Chunk(s[i + 1..j]) && Chunk(s[j + 1..]);
      PatternIsValid(s, i, j);
    }
    if IsValidEmail(s) {
      var i :| 0 < i < |s| && s[i] == '@'
               && (forall k :: 0 <= k < |s| && k != i ==> s[k] != '@')
               && exists j :: i + 1 < j < |s| - 1 && s[j] == '.';
      var j :| i + 1 < j < |s| - 1 && s[j] == '.';
      ValidIsPattern(s, i, j);
    }
  }

  /** Visible ASCII characters are not whitespace. */
  lemma VisibleNotSpace(s: string)
    requires forall k :: 0 <= k < |s| ==> '!' <= s[k] <= '~'
    ensures forall k :: 0 <= k < |s| ==> !IsSpace(s[k])
  {
  }

  /** The plain test passes given the position of the `@` and of a dot. */
  lemma ValidAt(s: string, i: nat, j: nat)
    requires forall k :: 0 <= k < |s| ==> !IsSpace(s[k])
    requires 0 < i < |s| && s[i] == '@' && forall k :: 0 <= k < |s| && k != i ==> s[k] != '@'
    requires i + 1 < j < |s| - 1 && s[j] == '.'
    ensures IsValidEmail(s)
  {
  }

  /** An ordinary address passes. */
  lemma ValidExample()
    ensures IsValidEmail("ann@example.com")
  {
    var s := "ann@example.com";
    VisibleNotSpace(s);
    assert forall k :: 0 <= k < |s| && k != 3 ==> s[k] != '@';
    ValidAt(s, 3, 11);
  }

  /** A domain may hold several dots. */
  lemma SeveralDotsExample()
    ensures IsValidEmail("a@b.c.d")
  {
    var t := "a@b.c.d";
    VisibleNotSpace(t);
    assert forall k :: 0 <= k < |t| && k != 1 ==> t[k] != '@';
    ValidAt(t, 1, 3);
  }

  /** A domain without a dot fails. */
  lemma MissingDotExample()
    ensures !IsValidEmail("ann@example")
  {
    var u := "ann@example";
    assert u[3] == '@';
  }

  /** A second `@` fails. */
  lemma DoubleAtExample()
    ensures !IsValidEmail("ann@@example.com")
  {
    var w := "ann@@example.com";
    assert w[3] == '@' && w[4] == '@';
  }

  /** A space fails. */
  lemma SpaceExample()
    ensures !IsValidEmail("ann smith@example.com")
  {
    var x := "ann smith@example.com";
    assert IsSpace(x[3]);
  }

  /** A dot right after the `@` does not count. */
  lemma DotAfterAtExample()
    ensures !IsValidEmail("ann@.com")
  {
    var y := "ann@.com";
    assert y[3] == '@' && y[4] == '.';
    forall i | 0 < i < |y| && y[i] == '@' && (forall k :: 0 <= k < |y| && k != i ==> y[k] != '@')
      ensures !exists j :: i + 1 < j < |y| - 1 && y[j] == '.'
    {
      assert i == 3;
    }
  }
}
