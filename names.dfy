/** Cleaning of the competitor list: every name is stripped of surrounding
    whitespace and names that are then empty are dropped, in order. */
module Names {

  /** The characters for which Python's str.isspace() holds; str.strip() with
      no argument removes exactly these from both ends. */
  const SpaceChars: set<char> := {
    ' ', '\t', '\n', '\U{B}', '\U{C}', '\r', '\U{1C}', '\U{1D}', '\U{1E}',
    '\U{1F}', '\U{85}', '\U{A0}', '\U{1680}', '\U{2000}', '\U{2001}', '\U{2002}',
    '\U{2003}', '\U{2004}', '\U{2005}', '\U{2006}', '\U{2007}', '\U{2008}',
    '\U{2009}', '\U{200A}', '\U{2028}', '\U{2029}', '\U{202F}', '\U{205F}',
    '\U{3000}'
  }

  /** No printable ASCII character is whitespace; blank, tab, newline and
      carriage return are. */
  predicate IsSpace(c: char): (b: bool)
    ensures b ==> !('!' <= c <= '~')
    ensures c == ' ' || c == '\t' || c == '\n' || c == '\r' ==> b
  {
    c in SpaceChars
  }

  /** Neither end of s is whitespace. */
  predicate IsStripped(s: string) {
    s == [] || (!IsSpace(s[0]) && !IsSpace(s[|s| - 1]))
  }

  predicate AllSpace(s: string) {
    forall i :: 0 <= i < |s| ==> IsSpace(s[i])
  }

  /** The number of whitespace characters at the start of s. */
  function LeadingSpaces(s: string): (k: nat)
    ensures k <= |s| && AllSpace(s[..k])
    ensures k < |s| ==> !IsSpace(s[k])
  {
    if s != [] && IsSpace(s[0]) then 1 + LeadingSpaces(s[1..]) else 0
  }

  /** The number of whitespace characters at the end of s. */
  function TrailingSpaces(s: string): (k: nat)
    ensures k <= |s| && AllSpace(s[|s| - k..])
    ensures k < |s| ==> !IsSpace(s[|s| - k - 1])
  {
    if s != [] && IsSpace(s[|s| - 1]) then 1 + TrailingSpaces(s[..|s| - 1]) else 0
  }

  /** Where the stripped text ends: before the trailing whitespace, or at the
      end when s is whitespace only (the trailing run then covers the leading
      one). */
  function StripEnd(s: string): (b: nat)
    ensures LeadingSpaces(s) <= b <= |s|
  {
    var a := LeadingSpaces(s);
    if a == |s| then |s|
    else
      var k := TrailingSpaces(s);
      assert a < |s| - k;
      |s| - k
  }

  /** Python's str.strip(): the text between the leading and the trailing
      whitespace. */
  function Strip(s: string): (r: string)
    ensures |r| <= |s| && IsStripped(r)
  {
    var a, b := LeadingSpaces(s), StripEnd(s);
    var r := s[a..b];
    assert r != [] ==> r[0] == s[a] && r[|r| - 1] == s[|s| - TrailingSpaces(s) - 1];
    r
  }

  /** A name that survives cleaning. */
  predicate IsCleanName(s: string) {
    s != [] && IsStripped(s)
  }

  /** Strip(s) is the stretch of s left once its whitespace ends are cut off:
      everything before and after it is whitespace. */
  lemma StripSpec(s: string)
    ensures AllSpace(s[..LeadingSpaces(s)]) && AllSpace(s[StripEnd(s)..])
  {
  }

  /** Strip(s) begins and ends with a non-whitespace character. */
  lemma StripIsStripped(s: string)
    ensures IsStripped(Strip(s))
  {
    var t := Strip(s);
    if t != [] {
      assert t[0] == s[LeadingSpaces(s)];
      assert t[|t| - 1] == s[|s| - TrailingSpaces(s) - 1];
    }
  }

  /** A string that does not strip to empty is a clean name once stripped. */
  lemma StripGivesCleanName(s: string)
    ensures Strip(s) != [] ==> IsCleanName(Strip(s))
  {
    StripIsStripped(s);
  }

  /** A string strips to empty exactly when it is all whitespace. */
  lemma StripEmpty(s: string)
    ensures Strip(s) == [] <==> AllSpace(s)
  {
    StripSpec(s);
    var lead := LeadingSpaces(s);
    if Strip(s) == [] {
      forall i | 0 <= i < |s| ensures IsSpace(s[i]) {
        assert s[..lead][i] == s[i];
      }
    } else {
      assert s[lead] == Strip(s)[0];
    }
  }

  /** Stripping leaves an already stripped string alone, so it is idempotent. */
  lemma StripStripped(s: string)
    requires IsStripped(s)
    ensures Strip(s) == s
  {
  }

  lemma StripIdempotent(s: string)
    ensures Strip(Strip(s)) == Strip(s)
  {
    StripIsStripped(s);
    StripStripped(Strip(s));
  }

  /** Every name stripped, in order, with the names that strip to empty
      dropped. */
  function Clean(names: seq<string>): (r: seq<string>)
    ensures |r| <= |names|
    ensures forall i :: 0 <= i < |r| ==> IsCleanName(r[i])
  {
    if names == [] then []
    else
      var t := Strip(names[0]);
      StripGivesCleanName(names[0]);
      if t != [] then [t] + Clean(names[1..]) else Clean(names[1..])
  }

  /** What cleaning keeps of one name: its strip, unless that is empty. */
  function CleanOne(s: string): seq<string> {
    if Strip(s) != [] then [Strip(s)] else []
  }

  /** Cleaning takes the names one at a time, from the front. */
  lemma CleanStep(names: seq<string>)
    requires names != []
    ensures Clean(names) == CleanOne(names[0]) + Clean(names[1..])
  {
  }

  /** Cleaning works name by name and keeps the order: it distributes over
      concatenation. */
  lemma {:induction false} CleanAppend(a: seq<string>, b: seq<string>)
    ensures Clean(a + b) == Clean(a) + Clean(b)
  {
    if a != [] {
      assert (a + b)[0] == a[0] && (a + b)[1..] == a[1..] + b;
      CleanStep(a + b);
      CleanStep(a);
      CleanAppend(a[1..], b);
      assert Clean(a + b) == CleanOne(a[0]) + (Clean(a[1..]) + Clean(b));
    } else {
      assert a + b == b;
    }
  }

  /** A name is in the cleaned list exactly when it is the non-empty strip of
      some input name. */
  lemma {:induction false} CleanMembers(names: seq<string>, x: string)
    ensures x in Clean(names) <==> x != [] && exists j :: 0 <= j < |names| && Strip(names[j]) == x
  {
    if names != [] {
      CleanMembers(names[1..], x);
      if x != [] && Strip(names[0]) != x {
        if exists j :: 0 <= j < |names| && Strip(names[j]) == x {
          var j :| 0 <= j < |names| && Strip(names[j]) == x;
          assert Strip(names[1..][j - 1]) == x;
        }
      }
      if x in Clean(names[1..]) {
        var j :| 0 <= j < |names[1..]| && Strip(names[1..][j]) == x;
        assert Strip(names[j + 1]) == x;
      }
    }
  }

  /** A list of names that are already clean is left unchanged. */
  lemma {:induction false} CleanOfCleanNames(names: seq<string>)
    requires forall i :: 0 <= i < |names| ==> IsCleanName(names[i])
    ensures Clean(names) == names
  {
    if names != [] {
      StripStripped(names[0]);
      CleanOfCleanNames(names[1..]);
    }
  }

  lemma CleanIdempotent(names: seq<string>)
    ensures Clean(Clean(names)) == Clean(names)
  {
    CleanOfCleanNames(Clean(names));
  }
}
