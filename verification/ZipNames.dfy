/** Naming the entries of a downloaded zip: a filename that is already taken gets a counter. */
module ZipNames {

  import opened Common

  // --- the decimal counter ---

  function Digit(d: nat): char
    requires d < 10
  {
    '0' + d as char
  }

  function Decimal(n: nat): string {
    if n < 10 then [Digit(n)] else Decimal(n / 10) + [Digit(n % 10)]
  }

  lemma {:induction false} DecimalInjective(m: nat, n: nat)
    requires Decimal(m) == Decimal(n)
    ensures m == n
  {
    var s, t := Decimal(m), Decimal(n);
    assert s[|s| - 1] == Digit(m % 10) && t[|t| - 1] == Digit(n % 10);
    if m >= 10 && n >= 10 {
      assert s[..|s| - 1] == Decimal(m / 10) && t[..|t| - 1] == Decimal(n / 10);
      DecimalInjective(m / 10, n / 10);
    }
  }

  // --- candidates for one filename ---

  /** The index of the last dot, or -1. */
  function LastDot(name: string): int {
    if name == "" then -1
    else if name[|name| - 1] == '.' then |name| - 1
    else LastDot(name[..|name| - 1])
  }

  lemma {:induction false} LastDotBound(name: string)
    ensures -1 <= LastDot(name) < |name|
  {
    if name != "" {
      LastDotBound(name[..|name| - 1]);
    }
  }

  /** The name with the counter before its extension; a leading dot is not an extension. */
  function Suffixed(name: string, counter: nat): string {
    LastDotBound(name);
    var dot := LastDot(name);
    if dot > 0 then name[..dot] + " (" + Decimal(counter) + ")" + name[dot..]
    else name + " (" + Decimal(counter) + ")"
  }

  lemma {:induction false} InfixInjective(a: string, x: string, y: string, b: string)
    requires a + x + b == a + y + b
    ensures x == y
  {
    var s, t := a + x + b, a + y + b;
    assert |x| == |y|;
    assert x == s[|a|..|a| + |x|] && y == t[|a|..|a| + |y|];
  }

  /** Where a name is split: the extension is the last dot and what follows, unless the dot comes first. */
  ghost predicate SplitAt(name: string, stem: string, ext: string) {
    && name == stem + ext
    && (ext != "" ==> stem != "" && ext[0] == '.' && '.' !in ext[1..])
    && (ext == "" && name != "" ==> '.' !in name[1..])
  }

  lemma {:induction false} LastDotMeans(name: string)
    ensures var dot := LastDot(name);
            -1 <= dot < |name| && (dot >= 0 ==> name[dot] == '.') && '.' !in name[dot + 1..]
  {
    LastDotBound(name);
    if name != "" && name[|name| - 1] != '.' {
      var front, dot := name[..|name| - 1], LastDot(name);
      LastDotMeans(front);
      LastDotBound(front);
      assert name[dot + 1..] == front[dot + 1..] + [name[|name| - 1]];
    }
  }

  /** A candidate is the name with " (counter)" between its stem and its extension. */
  lemma {:induction false} SuffixedMeans(name: string, counter: nat) returns (stem: string, ext: string)
    ensures SplitAt(name, stem, ext) && Suffixed(name, counter) == stem + " (" + Decimal(counter) + ")" + ext
  {
    LastDotBound(name);
    LastDotMeans(name);
    var dot := LastDot(name);
    stem, ext := if dot > 0 then name[..dot] else name, if dot > 0 then name[dot..] else "";
    assert name == stem + ext;
    if dot > 0 {
      assert ext[1..] == name[dot + 1..];
    } else if dot == 0 {
      assert name[1..] == name[dot + 1..];
    } else if name != "" {
      assert name[0..] == name;
      assert forall i :: 0 <= i < |name[1..]| ==> name[1..][i] == name[i + 1];
    }
  }

  function Value(digits: string): int {
    if digits == "" then 0 else 10 * Value(digits[..|digits| - 1]) + digits[|digits| - 1] as int - '0' as int
  }

  /** The counter is written in decimal, without leading zeros. */
  lemma {:induction false} DecimalMeans(n: nat)
    ensures Value(Decimal(n)) == n && (forall c :: c in Decimal(n) ==> '0' <= c <= '9')
    ensures n > 0 ==> Decimal(n)[0] != '0'
  {
    if n < 10 {
      assert Decimal(n)[..0] == "" && Value("") == 0;
    } else {
      DecimalMeans(n / 10);
      assert Decimal(n)[..|Decimal(n)| - 1] == Decimal(n / 10);
    }
  }

  /** Different counters give different candidates. */
  lemma {:induction false} SuffixedInjective(name: string, m: nat, n: nat)
    requires Suffixed(name, m) == Suffixed(name, n)
    ensures m == n
  {
    LastDotBound(name);
    var dot := LastDot(name);
    var head := (if dot > 0 then name[..dot] else name) + " (";
    var tail := ")" + if dot > 0 then name[dot..] else "";
    forall c: nat ensures Suffixed(name, c) == head + Decimal(c) + tail {
    }
    InfixInjective(head, Decimal(m), Decimal(n), tail);
    DecimalInjective(m, n);
  }

  ghost function Tried(name: string, counter: nat): set<string> {
    if counter <= 2 then {} else Tried(name, counter - 1) + {Suffixed(name, counter - 1)}
  }

  lemma {:induction false} TriedDistinct(name: string, counter: nat)
    requires counter >= 2
    ensures |Tried(name, counter)| == counter - 2
    ensures forall s :: s in Tried(name, counter) ==> exists c: nat :: 2 <= c < counter && s == Suffixed(name, c)
  {
    if counter > 2 {
      TriedDistinct(name, counter - 1);
      if Suffixed(name, counter - 1) in Tried(name, counter - 1) {
        var c: nat :| 2 <= c < counter - 1 && Suffixed(name, counter - 1) == Suffixed(name, c);
        SuffixedInjective(name, counter - 1, c);
      }
    }
  }

  // --- the loop ---

  /** All numbered variants before `c` are taken. */
  ghost predicate Reached(used: set<string>, filename: string, name: string, c: nat) {
    c >= 2 && name == Suffixed(filename, c) && filename in used && Tried(filename, c) <= used
  }

  /** The name an entry gets: the filename itself if free, else the first free numbered one. */
  ghost predicate FirstFree(used: set<string>, filename: string, name: string) {
    name !in used && (name == filename || exists c :: Reached(used, filename, name, c))
  }

  method FreeName(used: set<string>, filename: string) returns (name: string)
    ensures FirstFree(used, filename, name)
  {
    name := filename;
    var counter := 2;
    while name in used
      invariant counter >= 2
      invariant if counter == 2 then name == filename else Reached(used, filename, name, counter - 1)
      decreases |used| + 3 - counter
    {
      if counter > 2 {
        TriedFits(used, filename, name, counter - 1);
      }
      name := Suffixed(filename, counter);
      counter := counter + 1;
    }
  }

  /** A taken variant: the variants up to it are all different and all taken, so there are no more of
      them than taken names. */
  lemma {:induction false} TriedFits(used: set<string>, filename: string, name: string, c: nat)
    requires Reached(used, filename, name, c) && name in used
    ensures Tried(filename, c + 1) <= used && c - 1 <= |used|
  {
    TriedDistinct(filename, c + 1);
    SubsetCardinality(Tried(filename, c + 1), used);
  }

  /** The naming loop of `streamZip`: it terminates on every list of filenames, and no two entries of
      the zip share a name; each gets its own filename or the first free numbered variant of it. */
  method EntryNames(filenames: seq<string>) returns (names: seq<string>)
    ensures |names| == |filenames|
    ensures forall i, j :: 0 <= i < j < |names| ==> names[i] != names[j]
    ensures forall i :: 0 <= i < |names| ==> FirstFree(Elements(names[..i]), filenames[i], names[i])
  {
    var used: set<string> := {};
    names := [];
    for i := 0 to |filenames|
      invariant |names| == i && used == Elements(names)
      invariant AllFree(filenames, names)
    {
      var name := FreeName(used, filenames[i]);
      FreeExtends(filenames, names, name);
      names := names + [name];
      used := used + {name};
    }
  }

  ghost predicate AllFree(filenames: seq<string>, names: seq<string>) {
    |names| <= |filenames| && forall i :: 0 <= i < |names| ==> FirstFree(Elements(names[..i]), filenames[i], names[i])
  }

  lemma {:induction false} FreeExtends(filenames: seq<string>, names: seq<string>, name: string)
    requires AllFree(filenames, names) && |names| < |filenames| && FirstFree(Elements(names), filenames[|names|], name)
    ensures AllFree(filenames, names + [name]) && Elements(names + [name]) == Elements(names) + {name}
  {
    var longer := names + [name];
    forall i | 0 <= i < |longer| ensures FirstFree(Elements(longer[..i]), filenames[i], longer[i]) {
      if i < |names| {
        assert longer[..i] == names[..i];
      } else {
        assert longer[..i] == names;
      }
    }
  }
}
