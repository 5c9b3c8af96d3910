/** The string helpers the controller takes from Go's strings package. */
module Text {
  import opened Prelude

  function IndexOf(s: string, sep: char): (i: int)
    ensures -1 <= i < |s|
    ensures i >= 0 ==> s[i] == sep
  {
    if s == "" then -1
    else if s[0] == sep then 0
    else
      var i := IndexOf(s[1..], sep);
      if i == -1 then -1 else i + 1
  }

  /** strings.Split with a one-character separator. */
  function Split(s: string, sep: char): seq<string>
    decreases |s|
  {
    var i := IndexOf(s, sep);
    if i == -1 then [s] else [s[..i]] + Split(s[i + 1..], sep)
  }

  function Joined(parts: seq<string>, sep: char): string
    requires parts != []
  {
    if |parts| == 1 then parts[0] else parts[0] + [sep] + Joined(parts[1..], sep)
  }

  /** The parts hold no separator, and joining them gives the string back. */
  lemma {:induction false} SplitJoins(s: string, sep: char)
    ensures Split(s, sep) != [] && Joined(Split(s, sep), sep) == s
    ensures forall part :: part in Split(s, sep) ==> sep !in part
    decreases |s|
  {
    var i := IndexOf(s, sep);
    IndexIsFirst(s, sep);
    if i != -1 {
      SplitJoins(s[i + 1..], sep);
      SplitStep(s, i, sep);
      AroundSeparator(s, i);
    }
  }

  lemma SplitStep(s: string, i: nat, sep: char)
    requires i == IndexOf(s, sep)
    ensures Split(s, sep)[0] == s[..i] && Split(s, sep)[1..] == Split(s[i + 1..], sep)
  {
  }

  lemma AroundSeparator(s: string, i: nat)
    requires i < |s|
    ensures s == s[..i] + [s[i]] + s[i + 1..]
  {
  }

  lemma {:induction false} IndexIsFirst(s: string, sep: char)
    ensures IndexOf(s, sep) == -1 ==> sep !in s
    ensures IndexOf(s, sep) != -1 ==> sep !in s[..IndexOf(s, sep)]
  {
    if s != "" && s[0] != sep {
      IndexIsFirst(s[1..], sep);
    }
  }

  /** The UTF-8 encodings of the characters that strings.TrimSpace removes. */
  const SPACES: seq<string> := [
    "\t", "\n", "\U{B}", "\U{C}", "\r", " ",
    "\U{C2}\U{85}", "\U{C2}\U{A0}", "\U{E1}\U{9A}\U{80}",
    "\U{E2}\U{80}\U{80}", "\U{E2}\U{80}\U{81}", "\U{E2}\U{80}\U{82}", "\U{E2}\U{80}\U{83}",
    "\U{E2}\U{80}\U{84}", "\U{E2}\U{80}\U{85}", "\U{E2}\U{80}\U{86}", "\U{E2}\U{80}\U{87}",
    "\U{E2}\U{80}\U{88}", "\U{E2}\U{80}\U{89}", "\U{E2}\U{80}\U{8A}", "\U{E2}\U{80}\U{A8}",
    "\U{E2}\U{80}\U{A9}", "\U{E2}\U{80}\U{AF}", "\U{E2}\U{81}\U{9F}", "\U{E3}\U{80}\U{80}"]

  predicate StartsWith(s: string, p: string) {
    p <= s
  }

  predicate EndsWith(s: string, p: string) {
    |p| <= |s| && s[|s| - |p|..] == p
  }

  /** The length of the first of ps that s starts with, 0 if none. */
  function Leading(s: string, ps: seq<string>): (n: nat)
    ensures n <= |s|
  {
    if ps == [] then 0
    else if ps[0] != "" && StartsWith(s, ps[0]) then |ps[0]|
    else Leading(s, ps[1..])
  }

  lemma {:induction false} LeadingFound(s: string, ps: seq<string>)
    ensures Leading(s, ps) == 0 ==> forall p :: p in ps && p != "" ==> !StartsWith(s, p)
    ensures Leading(s, ps) > 0 ==> s[..Leading(s, ps)] in ps
    decreases |ps|
  {
    if ps != [] {
      if ps[0] != "" && StartsWith(s, ps[0]) {
        assert s[..|ps[0]|] == ps[0];
      } else {
        LeadingFound(s, ps[1..]);
      }
    }
  }

  /** The length of the first of ps that s ends with, 0 if none. */
  function Trailing(s: string, ps: seq<string>): (n: nat)
    ensures n <= |s|
  {
    if ps == [] then 0
    else if ps[0] != "" && EndsWith(s, ps[0]) then |ps[0]|
    else Trailing(s, ps[1..])
  }

  lemma {:induction false} TrailingFound(s: string, ps: seq<string>)
    ensures Trailing(s, ps) == 0 ==> forall p :: p in ps && p != "" ==> !EndsWith(s, p)
    ensures Trailing(s, ps) > 0 ==> s[|s| - Trailing(s, ps)..] in ps
    decreases |ps|
  {
    if ps != [] {
      if !(ps[0] != "" && EndsWith(s, ps[0])) {
        TrailingFound(s, ps[1..]);
      }
    }
  }

  function TrimLeft(s: string, ps: seq<string>): string
    decreases |s|
  {
    var n := Leading(s, ps);
    if n == 0 then s else TrimLeft(s[n..], ps)
  }

  function TrimRight(s: string, ps: seq<string>): string
    decreases |s|
  {
    var n := Trailing(s, ps);
    if n == 0 then s else TrimRight(s[..|s| - n], ps)
  }

  /** strings.TrimSpace, when ps are the SPACES. */
  function Trimmed(s: string, ps: seq<string>): string {
    TrimRight(TrimLeft(s, ps), ps)
  }

  /** s is a concatenation of members of ps. */
  ghost predicate Blank(s: string, ps: seq<string>)
    decreases |s|
  {
    s == "" || exists n :: 0 < n <= |s| && s[..n] in ps && Blank(s[n..], ps)
  }

  lemma {:induction false} BlankConcat(a: string, b: string, ps: seq<string>)
    requires Blank(a, ps) && Blank(b, ps)
    ensures Blank(a + b, ps)
    decreases |a|
  {
    if a == "" {
      assert a + b == b;
    } else {
      var n :| 0 < n <= |a| && a[..n] in ps && Blank(a[n..], ps);
      BlankConcat(a[n..], b, ps);
      assert (a + b)[..n] == a[..n] && (a + b)[n..] == a[n..] + b;
    }
  }

  lemma BlankOne(p: string, ps: seq<string>)
    requires p in ps && p != ""
    ensures Blank(p, ps)
  {
    var n := |p|;
    assert p[..n] == p && p[n..] == "";
    assert Blank(p[n..], ps);
  }

  lemma {:induction false} TrimLeftExactly(s: string, ps: seq<string>) returns (lead: string)
    ensures Blank(lead, ps) && s == lead + TrimLeft(s, ps)
    ensures forall p :: p in ps && p != "" ==> !StartsWith(TrimLeft(s, ps), p)
    decreases |s|
  {
    var n := Leading(s, ps);
    LeadingFound(s, ps);
    lead := "";
    if n != 0 {
      var rest := TrimLeftExactly(s[n..], ps);
      BlankOne(s[..n], ps);
      BlankConcat(s[..n], rest, ps);
      lead := s[..n] + rest;
      GlueLeft(s, n, rest, TrimLeft(s[n..], ps));
    }
  }

  lemma {:induction false} TrimRightExactly(s: string, ps: seq<string>) returns (trail: string)
    ensures Blank(trail, ps) && s == TrimRight(s, ps) + trail
    ensures forall p :: p in ps && p != "" ==> !EndsWith(TrimRight(s, ps), p)
    decreases |s|
  {
    var n := Trailing(s, ps);
    TrailingFound(s, ps);
    trail := "";
    if n != 0 {
      var k := |s| - n;
      var rest := TrimRightExactly(s[..k], ps);
      BlankOne(s[k..], ps);
      BlankConcat(rest, s[k..], ps);
      trail := rest + s[k..];
      GlueRight(s, k, TrimRight(s[..k], ps), rest);
    }
  }

  /** Trimming removes blank ends and leaves none of ps at either end. */
  lemma TrimExactly(s: string, ps: seq<string>) returns (lead: string, trail: string)
    ensures Blank(lead, ps) && Blank(trail, ps) && s == lead + Trimmed(s, ps) + trail
    ensures forall p :: p in ps && p != "" ==> !StartsWith(Trimmed(s, ps), p) && !EndsWith(Trimmed(s, ps), p)
  {
    lead := TrimLeftExactly(s, ps);
    trail := TrimRightExactly(TrimLeft(s, ps), ps);
    Associative(lead, Trimmed(s, ps), trail);
    forall p | p in ps && p != "" ensures !StartsWith(Trimmed(s, ps), p) {
      StillStarts(Trimmed(s, ps), trail, p);
    }
  }

  lemma StillStarts(a: string, b: string, p: string)
    ensures StartsWith(a, p) ==> StartsWith(a + b, p)
  {
  }

  /** Splits on commas and trims every part. */
  function CommaList(s: string): seq<string> {
    TrimAll(Split(s, ','), SPACES)
  }

  function TrimAll(parts: seq<string>, ps: seq<string>): seq<string> {
    if parts == [] then [] else TrimAll(parts[..|parts| - 1], ps) + [Trimmed(parts[|parts| - 1], ps)]
  }

  lemma {:induction false} TrimAllAt(parts: seq<string>, ps: seq<string>)
    ensures |TrimAll(parts, ps)| == |parts|
    ensures forall i :: 0 <= i < |parts| ==> TrimAll(parts, ps)[i] == Trimmed(parts[i], ps)
    decreases |parts|
  {
    if parts != [] {
      TrimAllAt(parts[..|parts| - 1], ps);
    }
  }

  /** The loop of parseAnnotationArray over an annotation that is not empty: the parts between the commas, in order,
      each trimmed as strings.TrimSpace does. */
  method ParseCommaList(s: string) returns (values: seq<string>)
    ensures values == CommaList(s)
  {
    values := TrimParts(Split(s, ','), SPACES);
  }

  method TrimParts(parts: seq<string>, ps: seq<string>) returns (values: seq<string>)
    ensures values == TrimAll(parts, ps)
  {
    values := [];
    for i := 0 to |parts|
      invariant values == TrimAll(parts[..i], ps)
    {
      assert parts[..i + 1][..i] == parts[..i];
      values := values + [Trimmed(parts[i], ps)];
    }
    assert parts[..|parts|] == parts;
  }
}
