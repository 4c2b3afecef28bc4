/** JSON Pointer strings as the agent builds them, and the conflict test that compares them. */
module JsonPointer {
  import opened Basics

  // strings.ReplaceAll: left to right, without overlaps.
  function ReplaceAll(s: string, old_: string, new_: string): string
    requires old_ != []
  {
    if |s| < |old_| then s
    else if s[..|old_|] == old_ then new_ + ReplaceAll(s[|old_|..], old_, new_)
    else [s[0]] + ReplaceAll(s[1..], old_, new_)
  }

  // The two passes of escapeJSONPointer and escapeManifestPointer.
  function Escape(s: string): string {
    ReplaceAll(ReplaceAll(s, "~", "~0"), "/", "~1")
  }

  // Decoding in the order that section 4 of RFC 6901 prescribes.
  function Unescape(s: string): string {
    ReplaceAll(ReplaceAll(s, "~1", "/"), "~0", "~")
  }

  // Reference definitions: one character at a time.
  function EscapeChar(c: char): string {
    if c == '~' then "~0" else if c == '/' then "~1" else [c]
  }

  function OnePass(s: string): string {
    if s == [] then [] else EscapeChar(s[0]) + OnePass(s[1..])
  }

  function TildesOnly(s: string): string {
    if s == [] then [] else (if s[0] == '~' then "~0" else [s[0]]) + TildesOnly(s[1..])
  }

  lemma {:induction false} FirstPass(s: string)
    ensures ReplaceAll(s, "~", "~0") == TildesOnly(s)
  {
    if s == [] {
    } else {
      FirstPass(s[1..]);
      assert s[..1] == [s[0]];
    }
  }

  lemma SkipChar(c: char, s: string, old_: string, new_: string)
    requires old_ != [] && old_[0] != c
    ensures ReplaceAll([c] + s, old_, new_) == [c] + ReplaceAll(s, old_, new_)
  {
    assert ([c] + s)[1..] == s;
    if |old_| <= |[c] + s| { assert ([c] + s)[..|old_|][0] == c; }
  }

  lemma EscapeIsOnePass(s: string)
    ensures Escape(s) == OnePass(s)
  {
    FirstPass(s);
    SecondPass(s);
  }

  lemma {:induction false} SecondPass(s: string)
    ensures ReplaceAll(TildesOnly(s), "/", "~1") == OnePass(s)
  {
    if s == [] {
    } else {
      var rest := TildesOnly(s[1..]);
      SecondPass(s[1..]);
      if s[0] == '~' {
        assert "~0" + rest == ['~'] + (['0'] + rest);
        SkipChar('~', ['0'] + rest, "/", "~1");
        SkipChar('0', rest, "/", "~1");
      } else if s[0] == '/' {
        var t := ['/'] + rest;
        assert t[..1] == "/" && t[1..] == rest;
      } else {
        SkipChar(s[0], rest, "/", "~1");
      }
    }
  }

  lemma {:induction false} UnescapeFirst(s: string)
    ensures ReplaceAll(OnePass(s), "~1", "/") == TildesOnly(s)
  {
    if s == [] {
    } else {
      var rest := OnePass(s[1..]);
      UnescapeFirst(s[1..]);
      if s[0] == '~' {
        var t := "~0" + rest;
        assert t[..2] == "~0" && t[1..] == ['0'] + rest;
        SkipChar('0', rest, "~1", "/");
      } else if s[0] == '/' {
        var t := "~1" + rest;
        assert t[..2] == "~1" && t[2..] == rest;
      } else {
        SkipChar(s[0], rest, "~1", "/");
      }
    }
  }

  lemma {:induction false} UnescapeSecond(s: string)
    ensures ReplaceAll(TildesOnly(s), "~0", "~") == s
  {
    if s == [] {
    } else {
      var rest := TildesOnly(s[1..]);
      UnescapeSecond(s[1..]);
      if s[0] == '~' {
        var t := "~0" + rest;
        assert t[..2] == "~0" && t[2..] == rest;
      } else {
        SkipChar(s[0], rest, "~0", "~");
      }
    }
  }

  // Section 4 of RFC 6901 undoes the escaping, so no two keys share an escaped form.
  lemma RoundTrip(s: string)
    ensures Unescape(Escape(s)) == s
  {
    EscapeIsOnePass(s);
    UnescapeFirst(s);
    UnescapeSecond(s);
  }

  lemma {:induction false} NoSlash(s: string)
    ensures '/' !in Escape(s)
  {
    EscapeIsOnePass(s);
    if s == [] {
    } else {
      NoSlash(s[1..]);
      EscapeIsOnePass(s[1..]);
    }
  }

  lemma {:induction false} PlainEscape(s: string)
    requires '~' !in s && '/' !in s
    ensures Escape(s) == s
  {
    EscapeIsOnePass(s);
    if s == [] {
    } else {
      PlainEscape(s[1..]);
      EscapeIsOnePass(s[1..]);
    }
  }

  // The pointer of a token path.
  function Pointer(tokens: seq<string>): string {
    if tokens == [] then "" else "/" + Escape(tokens[0]) + Pointer(tokens[1..])
  }

  // The agent grows pointers at the end: path + "/" + escape(key).
  lemma {:induction false} PointerAppend(tokens: seq<string>, key: string)
    ensures Pointer(tokens + [key]) == Pointer(tokens) + "/" + Escape(key)
  {
    var slash := "/";
    if tokens == [] {
      assert tokens + [key] == [key];
    } else {
      var head, below := slash + Escape(tokens[0]), Pointer(tokens[1..]);
      PointerAppend(tokens[1..], key);
      assert (tokens + [key])[1..] == tokens[1..] + [key];
      Regroup(head, below + slash, Escape(key));
      Regroup(head, below, slash);
    }
  }

  predicate HasPrefix(s: string, prefix: string) {
    prefix <= s
  }

  // The text before the first slash.
  function Segment(s: string): string {
    if s == [] || s[0] == '/' then [] else [s[0]] + Segment(s[1..])
  }

  lemma {:induction false} SegmentOf(a: string, x: string)
    requires '/' !in a && (x == "" || x[0] == '/')
    ensures Segment(a + x) == a
  {
    if a == [] {
      assert a + x == x;
    } else {
      SegmentOf(a[1..], x);
      assert (a + x)[1..] == a[1..] + x;
    }
  }

  lemma SameHead(key: string, x: string, other: string, y: string)
    requires (x == "" || x[0] == '/') && (y == "" || y[0] == '/')
    requires "/" + Escape(key) + x == "/" + Escape(other) + y
    ensures key == other && x == y
  {
    NoSlash(key);
    NoSlash(other);
    RoundTrip(key);
    RoundTrip(other);
    var a, b, slash := Escape(key), Escape(other), "/";
    SegmentOf(a, x);
    SegmentOf(b, y);
    Regroup(slash, a, x);
    Regroup(slash, b, y);
    assert a + x == (slash + (a + x))[1..] == (slash + (b + y))[1..] == b + y;
    assert x == (a + x)[|a|..];
  }

  // Distinct token paths have distinct pointers.
  lemma {:induction false} PointerInjective(p: seq<string>, q: seq<string>)
    requires Pointer(p) == Pointer(q)
    ensures p == q
  {
    if p == [] || q == [] {
    } else {
      SameHead(p[0], Pointer(p[1..]), q[0], Pointer(q[1..]));
      PointerInjective(p[1..], q[1..]);
      assert p == [p[0]] + p[1..] && q == [q[0]] + q[1..];
    }
  }

  lemma {:induction false} PrefixGivesAncestor(owned: seq<string>, changed: seq<string>, z: string)
    requires Pointer(changed) == Pointer(owned) + ("/" + z)
    ensures owned < changed
  {
    if owned == [] {
    } else {
      var x := Pointer(owned[1..]) + ("/" + z);
      assert Pointer(changed) == "/" + Escape(owned[0]) + x;
      SameHead(owned[0], x, changed[0], Pointer(changed[1..]));
      PrefixGivesAncestor(owned[1..], changed[1..], z);
      assert owned == [owned[0]] + owned[1..] && changed == [changed[0]] + changed[1..];
    }
  }

  lemma {:induction false} PointerConcat(p: seq<string>, q: seq<string>)
    ensures Pointer(p + q) == Pointer(p) + Pointer(q)
  {
    if p == [] {
      assert p + q == q;
    } else {
      PointerConcat(p[1..], q);
      assert (p + q)[1..] == p[1..] + q;
      Regroup("/" + Escape(p[0]), Pointer(p[1..]), Pointer(q));
    }
  }

  lemma DescendantHasPrefix(owned: seq<string>, rest: seq<string>)
    requires rest != []
    ensures HasPrefix(Pointer(owned + rest), Pointer(owned) + "/")
  {
    var slash, below := "/", Escape(rest[0]) + Pointer(rest[1..]);
    PointerConcat(owned, rest);
    Regroup(slash, Escape(rest[0]), Pointer(rest[1..]));
    Regroup(Pointer(owned), slash, below);
  }

  lemma AfterSlash(p: string, o: string) returns (z: string)
    requires HasPrefix(p, o + "/")
    ensures p == o + ("/" + z)
  {
    z := p[|o| + 1..];
    Regroup(o, "/", z);
  }

  // The string test `HasPrefix(p, q + "/")` holds exactly for proper descendants.
  lemma PrefixIsAncestry(owned: seq<string>, changed: seq<string>)
    ensures HasPrefix(Pointer(changed), Pointer(owned) + "/") <==> owned < changed
  {
    if HasPrefix(Pointer(changed), Pointer(owned) + "/") {
      var z := AfterSlash(Pointer(changed), Pointer(owned));
      PrefixGivesAncestor(owned, changed, z);
    }
    if owned < changed {
      assert changed == owned + changed[|owned|..];
      DescendantHasPrefix(owned, changed[|owned|..]);
    }
  }

  lemma TopLevelPointer(path: seq<string>, key: string)
    requires '~' !in key && '/' !in key
    ensures Pointer(path) == "/" + key <==> path == [key]
  {
    PlainEscape(key);
    assert Pointer([key]) == "/" + key;
    if Pointer(path) == "/" + key { PointerInjective(path, [key]); }
  }

  lemma AtMetadata(tokens: seq<string>)
    ensures Pointer(tokens) == "/metadata" <==> tokens == ["metadata"]
  {
    TopLevelPointer(tokens, "metadata");
    assert "/" + "metadata" == "/metadata";
  }

  // The three-way string test of conflictsFromError.
  predicate Overlap(changed: string, owned: string) {
    changed == owned || HasPrefix(changed, owned + "/") || HasPrefix(owned, changed + "/")
  }

  lemma PrefixCases<T>(p: seq<T>, q: seq<T>)
    ensures p <= q <==> p == q || p < q
  {
  }

  // It holds exactly when one token path is the other one or an ancestor of it.
  lemma OverlapIsKinship(changed: seq<string>, owned: seq<string>)
    ensures Overlap(Pointer(changed), Pointer(owned)) <==> changed <= owned || owned <= changed
  {
    PrefixIsAncestry(owned, changed);
    PrefixIsAncestry(changed, owned);
    PrefixCases(owned, changed);
    PrefixCases(changed, owned);
    if Pointer(changed) == Pointer(owned) { PointerInjective(changed, owned); }
  }
}
