/**
 * The three POSIX path operations the tools use: `os.path.join` of two
 * paths, `os.path.normpath` and `os.path.basename`, over path strings.
 */
module Paths {
  import opened Text

  /** `os.path.join(a, b)`: an absolute `b` replaces `a`; otherwise one `/` separates them. */
  function Join(a: string, b: string): (r: string)
    ensures StartsWith(b, "/") ==> r == b
    ensures !StartsWith(b, "/") && (a == [] || a[|a| - 1] == '/') ==> r == a + b
    ensures !StartsWith(b, "/") && a != [] && a[|a| - 1] != '/' ==> r == a + "/" + b
  {
    if StartsWith(b, "/") then b
    else if a == [] || a[|a| - 1] == '/' then a + b
    else a + "/" + b
  }

  /** `os.path.basename(p)`: what follows the last `/`. */
  function Basename(p: string): (r: string)
    ensures '/' !in r
    ensures |r| <= |p| && r == p[|p| - |r|..]
  {
    if p == [] || p[|p| - 1] == '/' then []
    else Basename(p[..|p| - 1]) + [p[|p| - 1]]
  }

  /** The basename of a path joined with a plain name is that name. */
  lemma BasenameOfJoin(dir: string, name: string)
    requires name != [] && '/' !in name
    ensures Basename(Join(dir, name)) == name
  {
    assert !StartsWith(name, "/") by { assert name[0] != '/'; }
    var p := Join(dir, name);
    var k := |p| - |name|;
    assert p[k..] == name;
    assert k == 0 || p[k - 1] == '/';
    BasenameAfter(p, k);
  }

  /** What follows a `/` (or the start) and holds no `/` is the basename. */
  lemma {:induction false} BasenameAfter(p: string, k: nat)
    requires k <= |p| && (k == 0 || p[k - 1] == '/')
    requires '/' !in p[k..]
    ensures Basename(p) == p[k..]
    decreases |p|
  {
    if k < |p| {
      var init := p[..|p| - 1];
      assert p[|p| - 1] in p[k..];
      assert init[k..] == p[k..|p| - 1];
      assert '/' !in init[k..] by {
        assert forall c :: c in init[k..] ==> c in p[k..];
      }
      BasenameAfter(init, k);
      assert p[k..] == init[k..] + [p[|p| - 1]];
    }
  }

  // ---------------------------------------------------------------------------
  // normpath

  /** POSIX keeps exactly two leading slashes; one, or three and more, become one. */
  function InitialSlashes(p: string): (n: nat)
    ensures n <= 2
    ensures n == 0 <==> !StartsWith(p, "/")
  {
    if !StartsWith(p, "/") then 0
    else if StartsWith(p, "//") && !StartsWith(p, "///") then 2
    else 1
  }

  /** One step of the component stack: drop `""` and `.`, let `..` cancel a component when it can. */
  function Step(stack: seq<string>, comp: string, rooted: bool): seq<string>
  {
    if comp == "" || comp == "." then stack
    else if comp != ".." || (!rooted && stack == []) || (stack != [] && stack[|stack| - 1] == "..") then stack + [comp]
    else if stack != [] then stack[..|stack| - 1]
    else stack
  }

  /** The components left after reading `comps` from left to right onto `stack`. */
  function Resolve(stack: seq<string>, comps: seq<string>, rooted: bool): seq<string>
    decreases |comps|
  {
    if comps == [] then stack else Resolve(Step(stack, comps[0], rooted), comps[1..], rooted)
  }

  function Slashes(n: nat): (r: string)
    ensures |r| == n && forall k :: 0 <= k < n ==> r[k] == '/'
  {
    if n == 0 then [] else "/" + Slashes(n - 1)
  }

  /** `os.path.normpath(p)` */
  function NormPath(p: string): string
  {
    if p == [] then "."
    else
      var slashes := InitialSlashes(p);
      var comps := Resolve([], Split(p, '/'), slashes > 0);
      var r := Slashes(slashes) + JoinWith(comps, '/');
      if r == [] then "." else r
  }

  /**
   * A normal component sequence: no empty, `.` or slash-bearing component, and
   * `..` only in a leading run of a relative path.
   */
  predicate IsNormal(stack: seq<string>, rooted: bool)
  {
    forall i :: 0 <= i < |stack| ==>
      && stack[i] != "" && stack[i] != "." && '/' !in stack[i]
      && (stack[i] == ".." ==> !rooted && forall j :: 0 <= j < i ==> stack[j] == "..")
  }

  lemma StepKeepsNormal(stack: seq<string>, comp: string, rooted: bool)
    requires IsNormal(stack, rooted) && '/' !in comp
    ensures IsNormal(Step(stack, comp, rooted), rooted)
  {
    var r := Step(stack, comp, rooted);
    if comp != "" && comp != "." && comp == ".." && stack != [] && stack[|stack| - 1] == ".." {
      assert r == stack + [comp];
      forall i | 0 <= i < |r| && r[i] == ".." ensures !rooted && forall j :: 0 <= j < i ==> r[j] == ".." {
        if i == |stack| {
          assert stack[|stack| - 1] == "..";
        }
      }
    }
  }

  /** Resolving slash-free components from a normal stack leaves a normal stack. */
  lemma {:induction false} ResolveIsNormal(stack: seq<string>, comps: seq<string>, rooted: bool)
    requires IsNormal(stack, rooted)
    requires forall j :: 0 <= j < |comps| ==> '/' !in comps[j]
    ensures IsNormal(Resolve(stack, comps, rooted), rooted)
    decreases |comps|
  {
    if comps != [] {
      StepKeepsNormal(stack, comps[0], rooted);
      ResolveIsNormal(Step(stack, comps[0], rooted), comps[1..], rooted);
    }
  }

  /** Components that are already normal pass through unchanged. */
  lemma {:induction false} ResolveNormal(stack: seq<string>, comps: seq<string>, rooted: bool)
    requires IsNormal(stack + comps, rooted)
    ensures Resolve(stack, comps, rooted) == stack + comps
    decreases |comps|
  {
    if comps != [] {
      var all := stack + comps;
      assert all[|stack|] == comps[0];
      if comps[0] == ".." && stack != [] {
        assert all[|stack| - 1] == stack[|stack| - 1];
      }
      assert Step(stack, comps[0], rooted) == stack + [comps[0]];
      assert stack + [comps[0]] + comps[1..] == all;
      ResolveNormal(stack + [comps[0]], comps[1..], rooted);
    } else {
      assert stack + comps == stack;
    }
  }

  /** Reading `a + b` is reading `a`, then `b`. */
  lemma {:induction false} ResolveAppend(stack: seq<string>, a: seq<string>, b: seq<string>, rooted: bool)
    ensures Resolve(stack, a + b, rooted) == Resolve(Resolve(stack, a, rooted), b, rooted)
    decreases |a|
  {
    if a == [] {
      assert a + b == b;
    } else {
      assert (a + b)[0] == a[0] && (a + b)[1..] == a[1..] + b;
      ResolveAppend(Step(stack, a[0], rooted), a[1..], b, rooted);
    }
  }

  /** Without `..`, reading components only adds to the stack. */
  lemma {:induction false} ResolveKeepsPrefix(stack: seq<string>, comps: seq<string>, rooted: bool)
    requires forall j :: 0 <= j < |comps| ==> comps[j] != ".."
    ensures stack <= Resolve(stack, comps, rooted)
    decreases |comps|
  {
    if comps != [] {
      var next := Step(stack, comps[0], rooted);
      assert stack <= next;
      ResolveKeepsPrefix(next, comps[1..], rooted);
      var r := Resolve(next, comps[1..], rooted);
      assert r[..|stack|] == next[..|stack|] == stack;
    }
  }

  /** The component sequence inside a normalised path. */
  function NormComponents(p: string): seq<string>
  {
    Resolve([], Split(p, '/'), InitialSlashes(p) > 0)
  }

  lemma NormComponentsNormal(p: string)
    ensures IsNormal(NormComponents(p), InitialSlashes(p) > 0)
  {
    ResolveIsNormal([], Split(p, '/'), InitialSlashes(p) > 0);
  }

  /** Empty components in front change nothing. */
  lemma {:induction false} ResolveSkipsEmpty(n: nat, comps: seq<string>, rooted: bool)
    ensures Resolve([], seq(n, _ => "") + comps, rooted) == Resolve([], comps, rooted)
  {
    if n > 0 {
      var e := seq(n, _ => "");
      assert (e + comps)[0] == "" && (e + comps)[1..] == seq(n - 1, _ => "") + comps;
      ResolveSkipsEmpty(n - 1, comps, rooted);
    } else {
      assert seq(n, _ => "") + comps == comps;
    }
  }

  /** Splitting `n` slashes followed by `body` gives `n` empty fields, then the fields of `body`. */
  lemma {:induction false} SplitAfterSlashes(n: nat, body: string)
    ensures Split(Slashes(n) + body, '/') == seq(n, _ => "") + Split(body, '/')
  {
    if n > 0 {
      var s := Slashes(n) + body;
      assert s[0] == '/' && s[1..] == Slashes(n - 1) + body;
      SplitAfterSlashes(n - 1, body);
      assert [""] + (seq(n - 1, _ => "") + Split(body, '/')) == seq(n, _ => "") + Split(body, '/');
    } else {
      assert Slashes(n) + body == body;
      assert seq(n, _ => "") + Split(body, '/') == Split(body, '/');
    }
  }

  /** `normpath` is idempotent: a normalised path is its own normal form. */
  lemma NormPathIdempotent(p: string)
    ensures NormPath(NormPath(p)) == NormPath(p)
  {
    var r := NormPath(p);
    if p != [] {
      var slashes := InitialSlashes(p);
      var comps := NormComponents(p);
      NormComponentsNormal(p);
      var body := JoinWith(comps, '/');
      var s := Slashes(slashes) + body;
      if s == [] {
        assert r == ".";
        SplitNoSeparator(".", '/');
      } else {
        assert r == s;
        NormalBodyShape(comps, slashes > 0);
        assert InitialSlashes(s) == slashes by {
          if slashes == 0 {
            assert s == body && comps != [];
          } else if slashes == 1 {
            assert s[0] == '/';
            if |s| > 1 { assert s[1] == body[0]; }
          } else {
            assert s[0] == '/' && s[1] == '/';
            if |s| > 2 { assert s[2] == body[0]; }
          }
        }
        SplitAfterSlashes(slashes, body);
        ResolveSkipsEmpty(slashes, Split(body, '/'), slashes > 0);
        if comps == [] {
          assert body == [];
          assert Split(body, '/') == [""];
          assert Resolve([], [""], slashes > 0) == [];
        } else {
          JoinSplitRoundTrip(comps, '/');
          ResolveNormal([], comps, slashes > 0);
          assert [] + comps == comps;
        }
      }
    } else {
      SplitNoSeparator(".", '/');
    }
  }

  lemma SplitNoSeparator(s: string, sep: char)
    requires sep !in s
    ensures Split(s, sep) == [s]
  {
    SplitPlain(s, [], sep);
    assert s + [] == s && s + "" == s;
  }

  /** A joined normal component sequence is empty or starts with a non-slash. */
  lemma NormalBodyShape(comps: seq<string>, rooted: bool)
    requires IsNormal(comps, rooted)
    ensures var body := JoinWith(comps, '/');
            && (comps == [] <==> body == [])
            && (comps != [] ==> body[0] != '/')
            && (forall j :: 0 <= j < |comps| ==> '/' !in comps[j])
  {
    if comps != [] {
      var c := comps[0];
      assert c != "" && '/' !in c;
      assert c[0] in c;
      if |comps| == 1 {
        assert JoinWith(comps, '/') == c;
      } else {
        assert JoinWith(comps, '/') == c + ['/'] + JoinWith(comps[1..], '/');
      }
    }
  }
}
