/** Slash-normalising path joining and the names derived from a service's name. */
module Paths {
  import opened Text

  function TrimEnd(s: string): string {
    if s != "" && s[|s| - 1] == '/' then TrimEnd(s[..|s| - 1]) else s
  }

  function TrimStart(s: string): string {
    if s != "" && s[0] == '/' then TrimStart(s[1..]) else s
  }

  function Trim(s: string): string {
    TrimStart(TrimEnd(s))
  }

  function PathJoin(parent: string, child: string): string {
    Glue(TrimEnd(parent), Trim(child))
  }

  function Glue(p: string, c: string): string {
    if p == "" && c == "" then "/"
    else if p == "" then "/" + c
    else if c == "" then p
    else p + "/" + c
  }

  // ---------- the algebra ----------

  predicate EndsProperly(s: string) {
    s != "" && s[|s| - 1] != '/'
  }

  lemma {:induction false} TrimEndShape(s: string)
    ensures TrimEnd(s) == "" || EndsProperly(TrimEnd(s))
    ensures EndsProperly(s) ==> TrimEnd(s) == s
    ensures TrimEnd(s) <= s
    decreases |s|
  {
    if s != "" && s[|s| - 1] == '/' {
      TrimEndShape(s[..|s| - 1]);
    }
  }

  lemma {:induction false} TrimStartShape(s: string)
    ensures TrimStart(s) == "" || (TrimStart(s)[0] != '/' && (EndsProperly(s) ==> EndsProperly(TrimStart(s))))
    ensures EndsProperly(s) ==> TrimStart(s) != ""
    decreases |s|
  {
    if s != "" && s[0] == '/' {
      TrimStartShape(s[1..]);
    }
  }

  lemma TrimShape(s: string)
    ensures Trim(s) == "" || (EndsProperly(Trim(s)) && Trim(s)[0] != '/')
    ensures Trim(s) == "" <==> TrimEnd(s) == ""
  {
    TrimEndShape(s);
    TrimStartShape(TrimEnd(s));
  }

  lemma {:induction false} TrimStartConcat(a: string, b: string)
    ensures TrimStart(a + b) == (if TrimStart(a) == "" then TrimStart(b) else TrimStart(a) + b)
    decreases |a|
  {
    if a == "" {
      assert a + b == b;
    } else if a[0] == '/' {
      assert (a + b)[1..] == a[1..] + b;
      TrimStartConcat(a[1..], b);
    }
  }

  /** What a joined path looks like to a join one level up or one level down. */
  lemma TrimJoin(a: string, b: string)
    ensures TrimEnd(PathJoin(a, b)) ==
      (if Trim(b) == "" then TrimEnd(a)
       else if TrimEnd(a) == "" then "/" + Trim(b) else TrimEnd(a) + "/" + Trim(b))
    ensures Trim(PathJoin(a, b)) ==
      (if Trim(a) == "" then Trim(b) else if Trim(b) == "" then Trim(a) else Trim(a) + "/" + Trim(b))
  {
    var p, c := TrimEnd(a), Trim(b);
    TrimShape(a);
    TrimShape(b);
    TrimEndShape(a);
    TrimEndShape(PathJoin(a, b));
    if c != "" {
      TrimStartConcat(p, "/" + c);
      assert p + ("/" + c) == p + "/" + c;
      assert ("/" + c)[1..] == c;
      assert TrimStart(c) == c;
      assert TrimStart(p) + ("/" + c) == TrimStart(p) + "/" + c;
    } else if p == "" {
      assert TrimEnd("/") == TrimEnd("/"[..0]);
    }
  }

  lemma GlueAssociative(p: string, q: string, r: string)
    ensures Glue(if q == "" then p else if p == "" then "/" + q else p + "/" + q, r)
         == Glue(p, if q == "" then r else if r == "" then q else q + "/" + r)
  {
    if q != "" && r != "" {
      assert p + "/" + q + "/" + r == p + "/" + (q + "/" + r);
      assert "/" + q + "/" + r == "/" + (q + "/" + r);
    }
  }

  lemma PathJoinAssociative(a: string, b: string, c: string)
    ensures PathJoin(PathJoin(a, b), c) == PathJoin(a, PathJoin(b, c))
  {
    TrimJoin(a, b);
    TrimJoin(b, c);
    GlueAssociative(TrimEnd(a), Trim(b), Trim(c));
  }

  function Slashes(n: nat): string {
    seq(n, _ => '/')
  }

  lemma {:induction false} TrimEndSlashes(s: string, n: nat)
    ensures TrimEnd(s + Slashes(n)) == TrimEnd(s)
  {
    if n == 0 {
      assert s + Slashes(0) == s;
    } else {
      TrimEndSlashes(s, n - 1);
      assert (s + Slashes(n))[..|s| + n - 1] == s + Slashes(n - 1);
    }
  }

  lemma {:induction false} TrimmedSlashes(s: string) returns (n: nat)
    ensures s == TrimEnd(s) + Slashes(n)
  {
    n := 0;
    if s != "" && s[|s| - 1] == '/' {
      var before := TrimmedSlashes(s[..|s| - 1]);
      n := before + 1;
      assert Slashes(n) == Slashes(before) + "/";
      assert s == s[..|s| - 1] + "/";
    } else {
      assert s + Slashes(0) == s;
    }
  }

  lemma {:induction false} TrimStartSlashes(n: nat)
    ensures TrimStart(Slashes(n)) == ""
  {
    if n > 0 {
      TrimStartSlashes(n - 1);
      assert Slashes(n)[1..] == Slashes(n - 1);
    }
  }

  lemma {:induction false} TrimEndBehind(s: string, n: nat)
    ensures TrimStart(TrimEnd(Slashes(n) + s)) == Trim(s)
    decreases |s|
  {
    TrimStartSlashes(n);
    if s == "" {
      TrimEndSlashes("", n);
      assert Slashes(n) + s == "" + Slashes(n);
    } else if s[|s| - 1] == '/' {
      assert (Slashes(n) + s)[..n + |s| - 1] == Slashes(n) + s[..|s| - 1];
      TrimEndBehind(s[..|s| - 1], n);
    } else {
      TrimEndShape(Slashes(n) + s);
      TrimStartConcat(Slashes(n), s);
    }
  }

  /** Slashes at the joint, and after the child, make no difference, however many. */
  lemma PathJoinIgnoresSlashes(a: string, b: string, i: nat, j: nat, k: nat)
    ensures PathJoin(a + Slashes(i), Slashes(j) + b + Slashes(k)) == PathJoin(a, b)
  {
    TrimEndSlashes(a, i);
    TrimEndSlashes(Slashes(j) + b, k);
    TrimEndBehind(b, j);
  }

  lemma {:induction false} TrimmedFront(s: string) returns (n: nat)
    ensures s == Slashes(n) + TrimStart(s)
    decreases |s|
  {
    n := 0;
    if s != "" && s[0] == '/' {
      var behind := TrimmedFront(s[1..]);
      n := behind + 1;
      assert Slashes(n) == "/" + Slashes(behind);
      assert s == "/" + s[1..];
    } else {
      assert Slashes(0) + s == s;
    }
  }

  /**
    * What a join is: the parent without the slashes at its end, one slash, and the child without the
    * slashes at its ends; the slash alone if nothing is left of either, the parent if no child is.
    */
  lemma PathJoinShape(a: string, b: string) returns (stem: string, core: string, n: nat, i: nat, j: nat)
    ensures a == stem + Slashes(n) && (stem == "" || stem[|stem| - 1] != '/')
    ensures b == Slashes(i) + core + Slashes(j) && (core == "" || (core[0] != '/' && core[|core| - 1] != '/'))
    ensures PathJoin(a, b) == if core != "" then stem + "/" + core else if stem != "" then stem else "/"
  {
    stem, core := TrimEnd(a), Trim(b);
    TrimEndShape(a);
    TrimShape(b);
    n := TrimmedSlashes(a);
    j := TrimmedSlashes(b);
    i := TrimmedFront(TrimEnd(b));
  }

  // ---------- components ----------

  function NonEmpty(parts: seq<string>): seq<string> {
    if parts == [] then []
    else (if parts[0] == "" then [] else [parts[0]]) + NonEmpty(parts[1..])
  }

  /** The names along a path: its non-empty pieces between slashes. */
  function Components(path: string): seq<string> {
    NonEmpty(Split(path, '/'))
  }

  lemma {:induction false} NonEmptyConcat(a: seq<string>, b: seq<string>)
    ensures NonEmpty(a + b) == NonEmpty(a) + NonEmpty(b)
    decreases |a|
  {
    if a == [] {
      assert a + b == b;
    } else {
      assert (a + b)[1..] == a[1..] + b;
      NonEmptyConcat(a[1..], b);
    }
  }

  lemma {:induction false} SplitAtSlash(a: string, b: string)
    ensures Split(a + "/" + b, '/') == Split(a, '/') + Split(b, '/')
    decreases |a|
  {
    if a == "" {
      assert a + "/" + b == "/" + b && ("/" + b)[1..] == b;
    } else {
      assert (a + "/" + b)[1..] == a[1..] + "/" + b;
      SplitAtSlash(a[1..], b);
    }
  }

  lemma ComponentsConcat(a: string, b: string)
    ensures Components(a + "/" + b) == Components(a) + Components(b)
  {
    SplitAtSlash(a, b);
    NonEmptyConcat(Split(a, '/'), Split(b, '/'));
  }

  lemma {:induction false} ComponentsTrimEnd(s: string)
    ensures Components(TrimEnd(s)) == Components(s)
    decreases |s|
  {
    if s != "" && s[|s| - 1] == '/' {
      ComponentsTrimEnd(s[..|s| - 1]);
      ComponentsConcat(s[..|s| - 1], "");
      assert s[..|s| - 1] + "/" + "" == s;
    }
  }

  lemma {:induction false} ComponentsTrimStart(s: string)
    ensures Components(TrimStart(s)) == Components(s)
    decreases |s|
  {
    if s != "" && s[0] == '/' {
      ComponentsTrimStart(s[1..]);
      ComponentsConcat("", s[1..]);
      assert "" + "/" + s[1..] == s;
    }
  }

  /** Joining paths is appending their names. */
  lemma ComponentsPathJoin(a: string, b: string)
    ensures Components(PathJoin(a, b)) == Components(a) + Components(b)
  {
    var p, c := TrimEnd(a), Trim(b);
    ComponentsTrimEnd(a);
    ComponentsTrimEnd(b);
    ComponentsTrimStart(TrimEnd(b));
    ComponentsConcat(p, c);
    assert p == "" ==> p + "/" + c == "/" + c;
    assert c == "" ==> p + "/" + c == p + "/";
    assert Components("") == [];
  }

  // ---------- other characters ----------

  lemma {:induction false} CharInTrimEnd(s: string, c: char)
    requires c != '/'
    ensures c in TrimEnd(s) <==> c in s
    decreases |s|
  {
    if s != "" && s[|s| - 1] == '/' {
      assert s == s[..|s| - 1] + ['/'];
      CharInTrimEnd(s[..|s| - 1], c);
    }
  }

  lemma {:induction false} CharInTrimStart(s: string, c: char)
    requires c != '/'
    ensures c in TrimStart(s) <==> c in s
    decreases |s|
  {
    if s != "" && s[0] == '/' {
      assert s == ['/'] + s[1..];
      CharInTrimStart(s[1..], c);
    }
  }

  /** Joining adds and loses slashes only. */
  lemma CharInPathJoin(a: string, b: string, c: char)
    requires c != '/'
    ensures c in PathJoin(a, b) <==> c in a || c in b
  {
    CharInTrimEnd(a, c);
    CharInTrimEnd(b, c);
    CharInTrimStart(TrimEnd(b), c);
  }
}
