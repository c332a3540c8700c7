/** Validation and sanitizing of the Kubernetes API path of an exec stream. */
module PathSanitizer {
  import opened Text

  /** `strings.ReplaceAll`: leftmost, non-overlapping occurrences of a non-empty string. */
  function ReplaceAll(s: string, sub: string, with: string): string
    requires sub != ""
  {
    if s == "" then ""
    else if sub <= s then with + ReplaceAll(s[|sub|..], sub, with)
    else [s[0]] + ReplaceAll(s[1..], sub, with)
  }

  const ALLOWED_PREFIXES: seq<string> :=
    ["/api/", "/apis/", "/version", "/healthz", "/readyz", "/livez", "/openapi/", "/api", "/apis"]

  predicate StartsAllowed(path: string) {
    exists i | 0 <= i < |ALLOWED_PREFIXES| :: HasPrefix(path, ALLOWED_PREFIXES[i])
  }

  predicate IsValidK8sApiPath(path: string) {
    var clean := ReplaceAll(ReplaceAll(path, "..", ""), "//", "/");
    && path != ""
    && HasPrefix(clean, "/")
    && '%' !in path && '\\' !in path
    && '\r' !in path && '\n' !in path
    && StartsAllowed(clean)
  }

  // ----- What sanitizing means -----

  /** `s` without the character `c`. */
  function Without(s: string, c: char): string {
    if s == "" then "" else (if s[0] == c then "" else [s[0]]) + Without(s[1..], c)
  }

  /** `s` with every run of slashes reduced to one; `afterSlash` says that a slash
      stands right before `s`. */
  function Squeezed(afterSlash: bool, s: string): string
    decreases |s|
  {
    if s == "" then ""
    else if afterSlash && s[0] == '/' then Squeezed(true, s[1..])
    else [s[0]] + Squeezed(s[0] == '/', s[1..])
  }

  /** The whole of `sanitizeURLPath` in one pass per rule. */
  function Sanitized(path: string): string {
    var plain := Without(Without(Without(path, '\r'), '\n'), '\0');
    var squeezed := Squeezed(false, ReplaceAll(plain, "..", ""));
    if squeezed != "" && squeezed[0] != '/' then "/" + squeezed else squeezed
  }

  // ----- The loop: repeated replacement is squeezing -----

  lemma {:induction false} RemoveChar(s: string, c: char)
    ensures ReplaceAll(s, [c], "") == Without(s, c)
  {
    if s != "" {
      RemoveChar(s[1..], c);
      assert [c] <= s <==> s[0] == c;
    }
  }

  lemma {:induction false} ReplaceKeepsSqueezed(after: bool, s: string)
    ensures Squeezed(after, ReplaceAll(s, "//", "/")) == Squeezed(after, s)
    decreases |s|
  {
    if s == "" {
    } else if "//" <= s {
      ReplaceKeepsSqueezed(true, s[2..]);
      assert ReplaceAll(s, "//", "/") == ['/'] + ReplaceAll(s[2..], "//", "/");
      assert s[1..][0] == '/' && s[1..][1..] == s[2..];
    } else {
      ReplaceKeepsSqueezed(s[0] == '/', s[1..]);
      ReplaceKeepsSqueezed(true, s[1..]);
      assert ReplaceAll(s, "//", "/") == [s[0]] + ReplaceAll(s[1..], "//", "/");
    }
  }

  lemma {:induction false} ReplaceShrinks(s: string)
    ensures |ReplaceAll(s, "//", "/")| <= |s|
    ensures Contains(s, "//") ==> |ReplaceAll(s, "//", "/")| < |s|
    decreases |s|
  {
    if s == "" {
    } else if "//" <= s {
      ReplaceShrinks(s[2..]);
    } else {
      ReplaceShrinks(s[1..]);
      if Contains(s, "//") {
        ContainsInTail(s, "//");
      }
    }
  }

  /** No slash directly before the string and no two in a row: nothing to squeeze. */
  lemma {:induction false} SqueezedFixed(s: string)
    requires !Contains(s, "//")
    ensures Squeezed(false, s) == s
    ensures s != "" && s[0] != '/' ==> Squeezed(true, s) == s
  {
    if s != "" {
      if Contains(s[1..], "//") {
        ContainsTail(s, "//");
      }
      if s[0] == '/' && |s| > 1 && s[1] == '/' {
        assert s[..2] == "//";
        PrefixIsContained(s, "//");
      }
      SqueezedFixed(s[1..]);
    }
  }

  method SanitizeUrlPath(input: string) returns (path: string)
    ensures path == Sanitized(input)
  {
    path := ReplaceAll(input, "\r", "");
    path := ReplaceAll(path, "\n", "");
    path := ReplaceAll(path, "\0", "");
    RemoveChar(input, '\r');
    RemoveChar(Without(input, '\r'), '\n');
    RemoveChar(Without(Without(input, '\r'), '\n'), '\0');
    path := ReplaceAll(path, "..", "");
    ghost var squeezed := Squeezed(false, path);
    while Contains(path, "//")
      invariant Squeezed(false, path) == squeezed
      decreases |path|
    {
      ReplaceShrinks(path);
      ReplaceKeepsSqueezed(false, path);
      path := ReplaceAll(path, "//", "/");
    }
    SqueezedFixed(path);
    if path != "" && !HasPrefix(path, "/") {
      path := "/" + path;
    }
  }

  // ----- What a sanitized path looks like -----

  /** No two neighbours are both `c`. */
  predicate NoPair(s: string, c: char) {
    forall i | 0 <= i < |s| - 1 :: s[i] != c || s[i + 1] != c
  }

  lemma DoubleIsPair(s: string, c: char, i: nat)
    requires OccursAt(s, [c, c], i)
    ensures i + 1 < |s| && s[i] == c && s[i + 1] == c
  {
    assert s[i] == s[i..i + 2][0] && s[i + 1] == s[i..i + 2][1];
  }

  lemma NoPairMeansNoDouble(s: string, c: char)
    requires NoPair(s, c)
    ensures !Contains(s, [c, c])
  {
    if Contains(s, [c, c]) {
      var i :| 0 <= i <= |s| && OccursAt(s, [c, c], i);
      DoubleIsPair(s, c, i);
      assert false;
    }
  }

  lemma PrependNoPair(x: char, s: string, c: char)
    requires NoPair(s, c)
    requires s == "" || x != c || s[0] != c
    ensures NoPair([x] + s, c)
  {
    forall i | 0 <= i < |[x] + s| - 1
      ensures ([x] + s)[i] != c || ([x] + s)[i + 1] != c
    {
      if i > 0 {
        assert s[i - 1] != c || s[i] != c;
      }
    }
  }

  /** Dropping ".." leaves no "..": what remains of a run of dots is at most one. */
  lemma {:induction false} DotsRemoved(s: string)
    ensures NoPair(ReplaceAll(s, "..", ""), '.')
    ensures s != "" && s[0] != '.' ==>
              ReplaceAll(s, "..", "") != "" && ReplaceAll(s, "..", "")[0] == s[0]
    ensures forall c :: c !in s ==> c !in ReplaceAll(s, "..", "")
    decreases |s|
  {
    if s == "" {
    } else if ".." <= s {
      DotsRemoved(s[2..]);
      assert s[0] == '.';
    } else {
      var t := s[1..];
      DotsRemoved(t);
      if s[0] == '.' && t != "" {
        assert s[..2] == ['.', t[0]];
      }
      PrependNoPair(s[0], ReplaceAll(t, "..", ""), '.');
    }
  }

  lemma {:induction false} SqueezedShape(after: bool, s: string)
    ensures NoPair(Squeezed(after, s), '/')
    ensures after && Squeezed(after, s) != "" ==> Squeezed(after, s)[0] != '/'
    ensures forall c :: c !in s ==> c !in Squeezed(after, s)
    decreases |s|
  {
    if s == "" {
    } else if after && s[0] == '/' {
      SqueezedShape(true, s[1..]);
    } else {
      SqueezedShape(s[0] == '/', s[1..]);
      PrependNoPair(s[0], Squeezed(s[0] == '/', s[1..]), '/');
    }
  }

  /** Squeezing drops slashes only, so it brings no two dots together. */
  lemma {:induction false} SqueezedKeepsDotsApart(after: bool, s: string)
    requires NoPair(s, '.')
    ensures NoPair(Squeezed(after, s), '.')
    ensures s != "" && s[0] != '/' ==> Squeezed(after, s) != "" && Squeezed(after, s)[0] == s[0]
    decreases |s|
  {
    if s == "" {
    } else {
      var t := s[1..];
      assert NoPair(t, '.') by {
        forall i | 0 <= i < |t| - 1 ensures t[i] != '.' || t[i + 1] != '.' {
          assert s[i + 1] != '.' || s[i + 2] != '.';
        }
      }
      if after && s[0] == '/' {
        SqueezedKeepsDotsApart(true, t);
      } else {
        SqueezedKeepsDotsApart(s[0] == '/', t);
        var rest := Squeezed(s[0] == '/', t);
        if s[0] == '.' && rest != "" {
          assert t != "";
          assert s[0] != '.' || s[1] != '.';
          if t[0] != '/' {
            assert rest[0] == t[0];
          } else {
            assert rest[0] == '/';
          }
        }
        PrependNoPair(s[0], rest, '.');
      }
    }
  }

  lemma {:induction false} WithoutChar(s: string, c: char)
    ensures c !in Without(s, c)
    ensures forall d :: d !in s ==> d !in Without(s, c)
    ensures c !in s ==> Without(s, c) == s
  {
    if s != "" {
      WithoutChar(s[1..], c);
      assert s == [s[0]] + s[1..];
    }
  }

  ghost predicate Clean(p: string) {
    && '\r' !in p && '\n' !in p && '\0' !in p
    && !Contains(p, "..") && !Contains(p, "//")
    && (p == "" || p[0] == '/')
  }

  lemma SanitizedIsClean(path: string)
    ensures Clean(Sanitized(path))
  {
    var p1 := Without(path, '\r');
    var p2 := Without(p1, '\n');
    var p3 := Without(p2, '\0');
    WithoutChar(path, '\r');
    WithoutChar(p1, '\n');
    WithoutChar(p2, '\0');
    var dotless := ReplaceAll(p3, "..", "");
    DotsRemoved(p3);
    var squeezed := Squeezed(false, dotless);
    SqueezedShape(false, dotless);
    SqueezedKeepsDotsApart(false, dotless);
    var result := Sanitized(path);
    if squeezed != "" && squeezed[0] != '/' {
      PrependNoPair('/', squeezed, '/');
      PrependNoPair('/', squeezed, '.');
    }
    assert "//" == ['/', '/'] && ".." == ['.', '.'];
    NoPairMeansNoDouble(result, '/');
    NoPairMeansNoDouble(result, '.');
  }

  lemma {:induction false} NothingToReplace(s: string, sub: string, with: string)
    requires sub != "" && !Contains(s, sub)
    ensures ReplaceAll(s, sub, with) == s
  {
    if s != "" {
      if sub <= s {
        PrefixIsContained(s, sub);
      }
      if Contains(s[1..], sub) {
        ContainsTail(s, sub);
      }
      NothingToReplace(s[1..], sub, with);
      assert s == [s[0]] + s[1..];
    }
  }

  /** A clean path is a fixed point, hence sanitizing twice is sanitizing once. */
  lemma CleanIsFixed(p: string)
    requires Clean(p)
    ensures Sanitized(p) == p
  {
    WithoutChar(p, '\r');
    WithoutChar(p, '\n');
    WithoutChar(p, '\0');
    NothingToReplace(p, "..", "");
    SqueezedFixed(p);
  }

  lemma SanitizingIsIdempotent(path: string)
    ensures Sanitized(Sanitized(path)) == Sanitized(path)
  {
    SanitizedIsClean(path);
    CleanIsFixed(Sanitized(path));
  }

  /** On a path that sanitizing leaves alone, the validator accepts exactly what starts
      with an API or health prefix and holds no escape. */
  lemma ValidatorOnCleanPaths(p: string)
    requires Clean(p)
    ensures IsValidK8sApiPath(p) <==>
            && '%' !in p && '\\' !in p
            && ("/api" <= p || "/version" <= p || "/healthz" <= p || "/readyz" <= p || "/livez" <= p
                || "/openapi/" <= p)
  {
    NothingToReplace(p, "..", "");
    NothingToReplace(p, "//", "/");
    assert ALLOWED_PREFIXES[0] == "/api/" && ALLOWED_PREFIXES[1] == "/apis/" && ALLOWED_PREFIXES[2] == "/version";
    assert ALLOWED_PREFIXES[3] == "/healthz" && ALLOWED_PREFIXES[4] == "/readyz" && ALLOWED_PREFIXES[5] == "/livez";
    assert ALLOWED_PREFIXES[6] == "/openapi/" && ALLOWED_PREFIXES[7] == "/api" && ALLOWED_PREFIXES[8] == "/apis";
    assert "/api" <= "/api/" && "/api" <= "/apis/" && "/api" <= "/apis";
  }

  /** Escapes, backslashes and line ends are refused wherever they stand. */
  lemma EscapesRefused(p: string)
    requires '%' in p || '\\' in p || '\r' in p || '\n' in p
    ensures !IsValidK8sApiPath(p)
  {
  }

  // ----- An accepted path stays under an allowed prefix -----

  /** Neither dots nor NUL bytes, and no two slashes in a row. */
  ghost predicate PlainPrefix(after: bool, p: string) {
    && '.' !in p && '\0' !in p && NoPair(p, '/')
    && (after && p != "" ==> p[0] != '/')
  }

  lemma PlainPrefixTail(after: bool, p: string)
    requires p != "" && PlainPrefix(after, p)
    ensures PlainPrefix(p[0] == '/', p[1..])
  {
    var t := p[1..];
    forall i | 0 <= i < |t| - 1 ensures t[i] != '/' || t[i + 1] != '/' {
      assert p[i + 1] != '/' || p[i + 2] != '/';
    }
    if t != "" {
      assert p[0] != '/' || p[1] != '/';
    }
  }

  /** If dropping ".." and squeezing makes `s` start with a plain prefix, then it
      still does so when the NUL bytes were dropped first. */
  lemma {:induction false} NulRemovalKeepsPrefix(after: bool, s: string, p: string)
    requires PlainPrefix(after, p)
    requires p <= Squeezed(after, ReplaceAll(s, "..", ""))
    ensures p <= Squeezed(after, ReplaceAll(Without(s, '\0'), "..", ""))
    decreases |s|
  {
    if p == "" || s == "" {
    } else if ".." <= s {
      assert ReplaceAll(s, "..", "") == "" + ReplaceAll(s[2..], "..", "") == ReplaceAll(s[2..], "..", "");
      NulRemovalKeepsPrefix(after, s[2..], p);
      WithoutTwoDots(s);
      var t := Without(s[2..], '\0');
      assert (".." + t)[2..] == t;
      assert ReplaceAll(".." + t, "..", "") == "" + ReplaceAll(t, "..", "") == ReplaceAll(t, "..", "");
    } else {
      var t := s[1..];
      var out := ReplaceAll(t, "..", "");
      assert ReplaceAll(s, "..", "") == [s[0]] + out;
      assert ([s[0]] + out)[1..] == out;
      if after && s[0] == '/' {
        NulRemovalKeepsPrefix(true, t, p);
      } else {
        assert Squeezed(after, [s[0]] + out) == [s[0]] + Squeezed(s[0] == '/', out);
        assert p[0] == s[0];
        assert p[0] in p;
        PlainPrefixTail(after, p);
        assert p[1..] <= Squeezed(s[0] == '/', out);
        NulRemovalKeepsPrefix(s[0] == '/', t, p[1..]);
      }
      var u := Without(t, '\0');
      assert Without(s, '\0') == [s[0]] + u;
      assert ([s[0]] + u)[1..] == u;
      assert ReplaceAll([s[0]] + u, "..", "") == [s[0]] + ReplaceAll(u, "..", "");
      assert ([s[0]] + ReplaceAll(u, "..", ""))[1..] == ReplaceAll(u, "..", "");
      assert p == [p[0]] + p[1..];
    }
  }

  lemma WithoutTwoDots(s: string)
    requires ".." <= s
    ensures Without(s, '\0') == ".." + Without(s[2..], '\0')
  {
    assert s[0] == '.' && s[1..][0] == '.' && s[1..][1..] == s[2..];
    assert Without(s[1..], '\0') == "." + Without(s[2..], '\0');
  }

  lemma {:induction false} SqueezedKeepsPrefix(after: bool, s: string, p: string)
    requires PlainPrefix(after, p) && p <= s
    ensures p <= Squeezed(after, s)
    decreases |s|
  {
    if p != "" {
      PlainPrefixTail(after, p);
      SqueezedKeepsPrefix(p[0] == '/', s[1..], p[1..]);
      assert p == [p[0]] + p[1..];
    }
  }

  lemma AllowedPrefixesArePlain(i: nat)
    requires i < |ALLOWED_PREFIXES|
    ensures PlainPrefix(false, ALLOWED_PREFIXES[i]) && "/" <= ALLOWED_PREFIXES[i]
  {
  }

  /** Validation and sanitizing look at different strings, yet every accepted path
      is sanitized into one under an allowed prefix. */
  lemma AcceptedStaysAllowed(path: string)
    requires IsValidK8sApiPath(path)
    ensures StartsAllowed(Sanitized(path))
  {
    var dotless := ReplaceAll(path, "..", "");
    var clean := ReplaceAll(dotless, "//", "/");
    var i :| 0 <= i < |ALLOWED_PREFIXES| && HasPrefix(clean, ALLOWED_PREFIXES[i]);
    var p := ALLOWED_PREFIXES[i];
    AllowedPrefixesArePlain(i);
    SqueezedKeepsPrefix(false, clean, p);
    ReplaceKeepsSqueezed(false, dotless);
    WithoutChar(path, '\r');
    WithoutChar(path, '\n');
    NulRemovalKeepsPrefix(false, path, p);
    assert HasPrefix(Sanitized(path), p);
  }
}
