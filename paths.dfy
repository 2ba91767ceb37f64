/**
 * Lexical path cleaning as Go's `path/filepath` performs it on forward-slash
 * paths: `Clean` and `Dir`.
 */
module Paths {
  import opened Strs

  /** The length of the elements joined by '/', plus one. */
  function Weight(parts: seq<string>): nat
  {
    if parts == [] then 0 else |parts[0]| + 1 + Weight(parts[1..])
  }

  lemma {:induction false} WeightSnoc(s: seq<string>, e: string)
    ensures Weight(s + [e]) == Weight(s) + |e| + 1
  {
    if s != [] {
      assert (s + [e])[1..] == s[1..] + [e];
      WeightSnoc(s[1..], e);
    }
  }

  lemma {:induction false} WeightDropLast(s: seq<string>)
    requires s != []
    ensures Weight(s[..|s| - 1]) + |s[|s| - 1]| + 1 == Weight(s)
  {
    WeightSnoc(s[..|s| - 1], s[|s| - 1]);
    assert s[..|s| - 1] + [s[|s| - 1]] == s;
  }

  lemma {:induction false} JoinLength(parts: seq<string>)
    requires parts != []
    ensures |Join(parts, "/")| + 1 == Weight(parts)
  {
    if |parts| > 1 {
      JoinLength(parts[1..]);
    }
  }

  lemma JoinHead(parts: seq<string>, sep: string)
    requires parts != []
    ensures parts[0] <= Join(parts, sep)
  {
  }

  /** Splitting at '/' and joining with '/' gives back the path. */
  lemma {:induction false} JoinSplit(s: string)
    ensures Join(Split(s, '/'), "/") == s
    decreases |s|
  {
    var i := IndexChar(s, '/');
    if i >= 0 {
      JoinCons(s[..i], Split(s[i + 1..], '/'));
      JoinSplit(s[i + 1..]);
      assert s == s[..i] + "/" + s[i + 1..];
    }
  }

  lemma JoinCons(a: string, rest: seq<string>)
    requires rest != []
    ensures Join([a] + rest, "/") == a + "/" + Join(rest, "/")
  {
    assert ([a] + rest)[1..] == rest;
  }

  /** A path ending in '/' splits into elements whose last one is empty. */
  lemma {:induction false} SplitTrailing(s: string)
    requires s != [] && s[|s| - 1] == '/'
    ensures var parts := Split(s, '/'); |parts| >= 2 && parts == parts[..|parts| - 1] + [""]
    decreases |s|
  {
    var i := IndexChar(s, '/');
    if i < |s| - 1 {
      SplitTrailing(s[i + 1..]);
    }
  }

  /** Elements a cleaned path may hold: non-empty, not ".", free of '/'. */
  predicate CleanElems(s: seq<string>)
  {
    forall i :: 0 <= i < |s| ==> s[i] != [] && s[i] != "." && NoChar(s[i], '/')
  }

  /** One element of the lexical walk: skip "" and ".", let ".." undo the
      last real element (or stay at the root, or pile up when relative). */
  function CleanStep(stack: seq<string>, e: string, rooted: bool): seq<string>
  {
    if e == "" || e == "." then stack
    else if e == ".." then
      if stack != [] && stack[|stack| - 1] != ".." then stack[..|stack| - 1]
      else if rooted then stack
      else stack + [".."]
    else stack + [e]
  }

  function CleanFrom(stack: seq<string>, parts: seq<string>, rooted: bool): seq<string>
    decreases |parts|
  {
    if parts == [] then stack else CleanFrom(CleanStep(stack, parts[0], rooted), parts[1..], rooted)
  }

  lemma {:induction false} CleanFromElems(stack: seq<string>, parts: seq<string>, rooted: bool)
    requires CleanElems(stack)
    requires forall i :: 0 <= i < |parts| ==> NoChar(parts[i], '/')
    ensures CleanElems(CleanFrom(stack, parts, rooted))
    decreases |parts|
  {
    if parts != [] {
      CleanFromElems(CleanStep(stack, parts[0], rooted), parts[1..], rooted);
    }
  }

  /** The walk never lengthens the path. */
  lemma {:induction false} CleanFromWeight(stack: seq<string>, parts: seq<string>, rooted: bool)
    ensures Weight(CleanFrom(stack, parts, rooted)) <= Weight(stack) + Weight(parts)
    decreases |parts|
  {
    if parts != [] {
      var e := parts[0];
      var next := CleanStep(stack, e, rooted);
      if e == "" || e == "." {
      } else if e == ".." && stack != [] && stack[|stack| - 1] != ".." {
        WeightDropLast(stack);
      } else if e == ".." && rooted {
      } else {
        WeightSnoc(stack, e);
      }
      assert Weight(next) <= Weight(stack) + |e| + 1;
      CleanFromWeight(next, parts[1..], rooted);
    }
  }

  /** A trailing empty element changes nothing. */
  lemma {:induction false} CleanFromTrailingEmpty(stack: seq<string>, parts: seq<string>, rooted: bool)
    ensures CleanFrom(stack, parts + [""], rooted) == CleanFrom(stack, parts, rooted)
    decreases |parts|
  {
    if parts != [] {
      assert (parts + [""])[0] == parts[0];
      assert (parts + [""])[1..] == parts[1..] + [""];
      CleanFromTrailingEmpty(CleanStep(stack, parts[0], rooted), parts[1..], rooted);
    }
  }

  lemma JoinNotDot(s: seq<string>)
    requires CleanElems(s)
    ensures s != [] ==> Join(s, "/") != "." && Join(s, "/") != [] && Join(s, "/")[0] != '/'
  {
    if s == [] { return; }
    JoinHead(s, "/");
    assert s[0][0] != '/';
    if |s| > 1 {
      JoinLength(s[1..]);
      assert |Join(s, "/")| >= 2;
    }
  }

  /** `filepath.Clean`: "" cleans to "."; a rooted path stays rooted with a
      single leading '/'; no element of the result is "" or ".". */
  function Clean(p: string): (r: string)
    ensures r != []
    ensures r[0] == '/' <==> (p != [] && p[0] == '/')
    ensures |r| >= 2 && r[0] == '/' ==> r[1] != '/' && r != "/."
  {
    if p == [] then "."
    else
      var rooted := p[0] == '/';
      var s := CleanFrom([], Split(p, '/'), rooted);
      CleanFromElems([], Split(p, '/'), rooted);
      var body := Join(s, "/");
      JoinNotDot(s);
      var r := if rooted then "/" + body else body;
      if r == [] then "." else r
  }

  /** The elements of a path ending in '/' weigh no more than its length. */
  lemma TrailingWeight(z: string, rooted: bool)
    requires z != [] && z[|z| - 1] == '/'
    ensures Weight(CleanFrom([], Split(z, '/'), rooted)) <= |z|
  {
    var ps := Split(z, '/');
    SplitTrailing(z);
    var init := ps[..|ps| - 1];
    CleanFromTrailingEmpty([], init, rooted);
    assert ps == init + [""];
    CleanFromWeight([], init, rooted);
    WeightDropLast(ps);
    JoinSplit(z);
    JoinLength(ps);
  }

  /** A rooted path's leading empty element is skipped. */
  lemma RootedSkip(x: string)
    requires x != [] && x[0] == '/'
    ensures CleanFrom([], Split(x, '/'), true) == CleanFrom([], Split(x[1..], '/'), true)
  {
    assert IndexChar(x, '/') == 0;
    assert Split(x, '/') == [""] + Split(x[1..], '/');
  }

  /** The length of a cleaned non-empty path in terms of its elements. */
  lemma CleanLength(p: string)
    requires p != []
    ensures var s := CleanFrom([], Split(p, '/'), p[0] == '/');
      |Clean(p)| == if s == [] then 1 else Weight(s) - (if p[0] == '/' then 0 else 1)
  {
    var s := CleanFrom([], Split(p, '/'), p[0] == '/');
    CleanFromElems([], Split(p, '/'), p[0] == '/');
    JoinNotDot(s);
    if s != [] {
      JoinLength(s);
    }
  }

  /** Cleaning a path that ends in '/' (other than the root itself) shortens it. */
  lemma CleanShortens(x: string)
    requires x != [] && x[|x| - 1] == '/' && x != "/"
    ensures |Clean(x)| < |x|
  {
    if x[0] == '/' {
      CleanShortensRooted(x);
    } else {
      CleanShortensRelative(x);
    }
  }

  lemma CleanShortensRooted(x: string)
    requires x != [] && x[|x| - 1] == '/' && x != "/" && x[0] == '/'
    ensures |Clean(x)| < |x|
  {
    CleanLength(x);
    RootedSkip(x);
    TrailingWeight(x[1..], true);
  }

  lemma CleanShortensRelative(x: string)
    requires x != [] && x[|x| - 1] == '/' && x[0] != '/'
    ensures |Clean(x)| < |x|
  {
    CleanLength(x);
    TrailingWeight(x, false);
  }

  /** `filepath.Dir`: everything up to the last '/', cleaned. */
  function Dir(p: string): string
  {
    Clean(p[..LastIndexChar(p, '/') + 1])
  }

  /** Taking the directory of a path other than "/" gives "." or "/" or a
      strictly shorter path. */
  lemma DirShortens(p: string)
    requires p != "/"
    ensures Dir(p) == "." || Dir(p) == "/" || |Dir(p)| < |p|
  {
    var i := LastIndexChar(p, '/');
    var prefix := p[..i + 1];
    if i >= 0 && prefix != "/" {
      CleanShortens(prefix);
    } else if i >= 0 {
      assert Split(prefix, '/') == ["", ""] by {
        assert IndexChar(prefix, '/') == 0;
        assert prefix[1..] == [];
      }
    }
  }
}
