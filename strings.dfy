/**
 The string helpers the name composer relies on: `strings.Join`,
 `util.ReverseArray`, `strings.ToLower`, `dns.Fqdn`, and the inverse of a join
 on "." (`strings.Split`), which states what a composed name can be read back as.
 */
module Strings {

  /** `strings.Join`: the parts separated by `sep`; the empty list joins to "". */
  function Join(parts: seq<string>, sep: string): string
  {
    if |parts| == 0 then ""
    else if |parts| == 1 then parts[0]
    else parts[0] + sep + Join(parts[1..], sep)
  }

  /** `util.ReverseArray`: the same elements in the opposite order. */
  function Reverse<T>(s: seq<T>): (r: seq<T>)
    ensures |r| == |s|
    ensures forall i :: 0 <= i < |s| ==> r[i] == s[|s| - 1 - i]
  {
    if s == [] then [] else Reverse(s[1..]) + [s[0]]
  }

  /** `strings.Split(s, ".")`: the maximal dot-free pieces of `s`, in order. */
  function Split(s: string): (r: seq<string>)
    ensures |r| >= 1
  {
    if s == [] then [""]
    else
      var rest := Split(s[1..]);
      if s[0] == '.' then [""] + rest
      else [[s[0]] + rest[0]] + rest[1..]
  }

  /** `strings.ToLower`, for the ASCII letters a port protocol is spelt with. */
  function ToLower(s: string): (r: string)
    ensures |r| == |s|
    ensures forall i :: 0 <= i < |s| && 'A' <= s[i] <= 'Z' ==> 'a' <= r[i] <= 'z' && r[i] as int == s[i] as int + 32
    ensures forall i :: 0 <= i < |s| && !('A' <= s[i] <= 'Z') ==> r[i] == s[i]
  {
    if s == [] then []
    else [LowerChar(s[0])] + ToLower(s[1..])
  }

  function LowerChar(c: char): char
  {
    if 'A' <= c <= 'Z' then (c as int + 32) as char else c
  }

  /** A name is fully qualified when it ends in the root label's dot. */
  predicate IsFqdn(s: string)
  {
    |s| > 0 && s[|s| - 1] == '.'
  }

  /** `dns.Fqdn`: append "." unless the name already ends in one. */
  function Fqdn(s: string): (r: string)
    ensures IsFqdn(r)
    ensures IsFqdn(s) ==> r == s
    ensures !IsFqdn(s) ==> r == s + "."
  {
    if IsFqdn(s) then s else s + "."
  }

  /** A well-formed DNS label: non-empty and free of the separator. */
  predicate IsLabel(s: string)
  {
    |s| > 0 && '.' !in s
  }

  /** Every element is a well-formed label. */
  predicate AllLabels(s: seq<string>)
  {
    forall i :: 0 <= i < |s| ==> IsLabel(s[i])
  }

  lemma ReverseTwice<T>(s: seq<T>)
    ensures Reverse(Reverse(s)) == s
  {
    assert forall i :: 0 <= i < |s| ==> Reverse(Reverse(s))[i] == s[i];
  }

  lemma ReverseAppend<T>(s: seq<T>, x: T)
    ensures Reverse(s + [x]) == [x] + Reverse(s)
  {
    var a, b := Reverse(s + [x]), [x] + Reverse(s);
    assert forall i :: 0 <= i < |a| ==> a[i] == b[i];
  }

  /** Joining a list whose first part is followed by more puts that part and a
      separator in front. */
  lemma JoinCons(x: string, rest: seq<string>, sep: string)
    requires rest != []
    ensures Join([x] + rest, sep) == x + sep + Join(rest, sep)
  {
    assert ([x] + rest)[1..] == rest;
  }

  /** The joined string ends with the last part. */
  lemma {:induction false} JoinEndsWithLast(parts: seq<string>, sep: string)
    requires |parts| >= 1
    ensures |Join(parts, sep)| >= |parts[|parts| - 1]|
    ensures Join(parts, sep)[|Join(parts, sep)| - |parts[|parts| - 1]|..] == parts[|parts| - 1]
  {
    if |parts| > 1 {
      JoinEndsWithLast(parts[1..], sep);
    }
  }

  lemma {:induction false} SplitDotFree(l: string)
    requires '.' !in l
    ensures Split(l) == [l]
  {
    if l != [] {
      SplitDotFree(l[1..]);
      assert [l[0]] + l[1..] == l;
    }
  }

  /** Splitting stops at the first dot: a dot-free head comes back as one piece. */
  lemma {:induction false} SplitLabelDot(l: string, rest: string)
    requires '.' !in l
    ensures Split(l + "." + rest) == [l] + Split(rest)
  {
    if l == [] {
      assert l + "." + rest == ['.'] + rest;
      assert (['.'] + rest)[1..] == rest;
    } else {
      SplitLabelDot(l[1..], rest);
      assert (l + "." + rest)[1..] == l[1..] + "." + rest;
      assert [l[0]] + l[1..] == l;
    }
  }

  /** Splitting a dot-joined list of dot-free parts gives the parts back. */
  lemma {:induction false} SplitJoin(parts: seq<string>)
    requires |parts| >= 1
    requires forall i :: 0 <= i < |parts| ==> '.' !in parts[i]
    ensures Split(Join(parts, ".")) == parts
  {
    if |parts| == 1 {
      SplitDotFree(parts[0]);
    } else {
      SplitJoin(parts[1..]);
      SplitLabelDot(parts[0], Join(parts[1..], "."));
      assert [parts[0]] + parts[1..] == parts;
    }
  }

}
