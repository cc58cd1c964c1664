// DNS names, wildcard patterns, and the choice of a route for a host.
module Domain {
  import opened Text
  import opened Wrappers

  // ----- Strings ------------------------------------------------------------------------

  function StripDot(s: string): string {
    if s != "" && s[|s| - 1] == '.' then s[..|s| - 1] else s
  }

  /** `split('.')`: never empty, and a dot at either end leaves an empty label there. */
  function Labels(s: string): (labels: seq<string>)
    ensures labels != []
  {
    if s == "" then [""]
    else
      var rest := Labels(s[1..]);
      if s[0] == '.' then [""] + rest else [[s[0]] + rest[0]] + rest[1..]
  }

  function Join(labels: seq<string>): string
    requires labels != []
  {
    if |labels| == 1 then labels[0] else labels[0] + "." + Join(labels[1..])
  }

  // ----- Normalisation ------------------------------------------------------------------

  datatype Error = InvalidName | SpaceAfterWildcard | WildcardTooLong | DomainOnPort | UnknownKind

  /** One to three digits without a leading zero, at most 255. */
  predicate IsOctet(s: string) {
    1 <= |s| <= 3 && (forall i | 0 <= i < |s| :: IsDigit(s[i])) && (|s| > 1 ==> s[0] != '0') && Number(s) <= 255
  }

  /** Of the two address forms only the dotted quad passes the label test: an IPv6 address has a colon. */
  predicate IsIpv4(s: string) {
    |Labels(s)| == 4 && forall l | l in Labels(s) :: IsOctet(l)
  }

  predicate BadLabel(l: string) {
    l == "" || |l| > 63 || l[0] == '-' || l[|l| - 1] == '-' || exists c | c in l :: !(IsAlphanumeric(c) || c == '-')
  }

  function NormalizeDomain(value: string): Result<string, Error> {
    var name := LowerAll(StripDot(Trim(value)));
    if name == "" || |name| > 253 || IsIpv4(name) || exists l | l in Labels(name) :: BadLabel(l)
    then Failure(InvalidName)
    else Success(name)
  }

  function NormalizePattern(value: string): Result<string, Error> {
    var trimmed := Trim(value);
    if "*." <= trimmed then
      var suffix := trimmed[2..];
      if suffix != "" && IsWhitespace(suffix[0]) then Failure(SpaceAfterWildcard)
      else
        var name := NormalizeDomain(suffix);
        if name.Failure? then name
        else if |name.value| + 2 > 253 then Failure(WildcardTooLong)
        else Success("*." + name.value)
    else NormalizeDomain(value)
  }

  function ValidateRoute(kind: string, domain: string): Result<string, Error> {
    if kind == "http" || kind == "https" then NormalizePattern(domain)
    else if kind == "tcp" || kind == "udp" then (if domain == "" then Success("") else Failure(DomainOnPort))
    else Failure(UnknownKind)
  }

  // ----- What normalisation means -------------------------------------------------------

  predicate IsLdh(c: char) { IsDigit(c) || 'a' <= c <= 'z' || c == '-' }

  /** Section 2.1 of RFC 1123 with the label limit of section 2.3.4 of RFC 1035, in lower case. */
  predicate ValidLabel(l: string) {
    1 <= |l| <= 63 && (forall i | 0 <= i < |l| :: IsLdh(l[i])) && l[0] != '-' && l[|l| - 1] != '-'
  }

  /** Four decimal numbers up to 255 with dots between them, as `to_string` writes them. */
  ghost predicate IsAddress(n: string) {
    exists a: nat, b: nat, c: nat, d: nat :: IsDotted(n, a, b, c, d)
  }

  ghost predicate IsDotted(n: string, a: nat, b: nat, c: nat, d: nat) {
    && a <= 255 && b <= 255 && c <= 255 && d <= 255
    && n == Join([Decimal(a), Decimal(b), Decimal(c), Decimal(d)])
  }

  ghost predicate ValidName(n: string) {
    1 <= |n| <= 253 && !IsAddress(n) && forall i | 0 <= i < |Labels(n)| :: ValidLabel(Labels(n)[i])
  }

  ghost predicate ValidPattern(p: string) {
    if "*." <= p then |p| <= 253 && ValidName(p[2..]) else ValidName(p)
  }

  /** `value` spells `name` up to ASCII case, white space around it, and one dot after it. */
  ghost predicate Spells(value: string, name: string) {
    exists before, spelling, dot, after :: IsSpelling(value, name, before, spelling, dot, after)
  }

  ghost predicate IsSpelling(value: string, name: string, before: string, spelling: string, dot: string,
                             after: string) {
    && value == before + spelling + dot + after
    && Blank(before) && Blank(after) && (dot == "" || dot == ".") && LowerAll(spelling) == name
  }

  lemma {:induction false} TrimStartSplits(s: string)
    ensures exists before :: Blank(before) && s == before + TrimStart(s)
    ensures TrimStart(s) != "" ==> !IsWhitespace(TrimStart(s)[0])
  {
    if s != "" && IsWhitespace(s[0]) {
      TrimStartSplits(s[1..]);
      var before :| Blank(before) && s[1..] == before + TrimStart(s[1..]);
      assert Blank([s[0]] + before) && s == ([s[0]] + before) + TrimStart(s);
    } else {
      assert Blank("") && s == "" + TrimStart(s);
    }
  }

  lemma {:induction false} TrimEndSplits(s: string)
    ensures exists after :: Blank(after) && s == TrimEnd(s) + after
    ensures TrimEnd(s) != "" ==> !IsWhitespace(TrimEnd(s)[|TrimEnd(s)| - 1]) && TrimEnd(s)[0] == s[0]
  {
    if s != "" && IsWhitespace(s[|s| - 1]) {
      var most := s[..|s| - 1];
      TrimEndSplits(most);
      var after :| Blank(after) && most == TrimEnd(most) + after;
      assert Blank(after + [s[|s| - 1]]) && s == TrimEnd(s) + (after + [s[|s| - 1]]);
    } else {
      assert Blank("") && s == TrimEnd(s) + "";
    }
  }

  lemma TrimSplits(s: string) returns (before: string, after: string)
    ensures Blank(before) && Blank(after) && s == before + Trim(s) + after
    ensures Trim(s) != "" ==> !IsWhitespace(Trim(s)[0]) && !IsWhitespace(Trim(s)[|Trim(s)| - 1])
  {
    TrimStartSplits(s);
    TrimEndSplits(TrimStart(s));
    before :| Blank(before) && s == before + TrimStart(s);
    after :| Blank(after) && TrimStart(s) == TrimEnd(TrimStart(s)) + after;
  }

  lemma {:induction false} TrimStartOf(before: string, s: string)
    requires Blank(before) && (s != "" ==> !IsWhitespace(s[0]))
    ensures TrimStart(before + s) == s
  {
    if before != "" {
      assert (before + s)[1..] == before[1..] + s;
      TrimStartOf(before[1..], s);
    } else {
      assert before + s == s;
    }
  }

  lemma {:induction false} TrimEndOf(s: string, after: string)
    requires Blank(after) && (s != "" ==> !IsWhitespace(s[|s| - 1]))
    ensures TrimEnd(s + after) == s
  {
    if after != "" {
      assert (s + after)[..|s + after| - 1] == s + after[..|after| - 1];
      TrimEndOf(s, after[..|after| - 1]);
    } else {
      assert s + after == s;
    }
  }

  lemma TrimOf(before: string, s: string, after: string)
    requires Blank(before) && Blank(after) && s != "" && !IsWhitespace(s[0]) && !IsWhitespace(s[|s| - 1])
    ensures Trim(before + s + after) == s
  {
    assert before + s + after == before + (s + after);
    TrimStartOf(before, s + after);
    TrimEndOf(s, after);
  }

  /** A label list is made of the characters of the name, cut at its dots. */
  lemma {:induction false} LabelChars(n: string, k: nat)
    requires k < |n|
    ensures n[k] == '.' || exists i, j :: 0 <= i < |Labels(n)| && 0 <= j < |Labels(n)[i]| && Labels(n)[i][j] == n[k]
  {
    var rest := Labels(n[1..]);
    if k > 0 {
      LabelChars(n[1..], k - 1);
      if n[k] != '.' {
        var i, j :| 0 <= i < |rest| && 0 <= j < |rest[i]| && rest[i][j] == n[k];
        if n[0] == '.' {
          assert Labels(n)[i + 1] == rest[i];
        } else if i == 0 {
          assert Labels(n)[0] == [n[0]] + rest[0];
          assert Labels(n)[0][j + 1] == n[k];
        } else {
          assert Labels(n)[i] == rest[i];
        }
      }
    } else if n[0] != '.' {
      assert Labels(n)[0][0] == n[0];
    }
  }

  lemma {:induction false} LabelEnds(n: string)
    requires n != ""
    ensures n[0] == '.' <==> Labels(n)[0] == ""
    ensures n[0] != '.' ==> Labels(n)[0][0] == n[0]
    ensures var last := Labels(n)[|Labels(n)| - 1];
            if n[|n| - 1] == '.' then last == "" else last != "" && last[|last| - 1] == n[|n| - 1]
  {
    if |n| > 1 {
      LabelEnds(n[1..]);
    } else {
      assert n[1..] == "";
    }
  }

  /** A valid name starts and ends with a letter or digit and holds only those, hyphens and dots. */
  lemma NameChars(n: string)
    requires ValidName(n)
    ensures forall k | 0 <= k < |n| :: n[k] == '.' || IsLdh(n[k])
    ensures n[0] != '.' && n[0] != '-' && n[|n| - 1] != '.' && n[|n| - 1] != '-'
  {
    forall k | 0 <= k < |n| ensures n[k] == '.' || IsLdh(n[k]) {
      LabelChars(n, k);
    }
    LabelEnds(n);
    var labels := Labels(n);
    assert ValidLabel(labels[0]) && ValidLabel(labels[|labels| - 1]);
  }

  lemma LowerIsIdentity(n: string)
    requires forall k | 0 <= k < |n| :: n[k] == '.' || IsLdh(n[k])
    ensures LowerAll(n) == n
  {
  }

  /** On lower-case names the source's label test is the label rule. */
  lemma LabelTest(l: string)
    requires forall i | 0 <= i < |l| :: Lower(l[i]) == l[i]
    ensures BadLabel(l) <==> !ValidLabel(l)
  {
    if !ValidLabel(l) && 1 <= |l| <= 63 && l[0] != '-' && l[|l| - 1] != '-' {
      var i :| 0 <= i < |l| && !IsLdh(l[i]);
      assert l[i] in l;
    }
  }

  lemma {:induction false} LabelsAreLower(n: string)
    requires forall k | 0 <= k < |n| :: Lower(n[k]) == n[k]
    ensures forall i, j | 0 <= i < |Labels(n)| && 0 <= j < |Labels(n)[i]| :: Lower(Labels(n)[i][j]) == Labels(n)[i][j]
  {
    if n != "" {
      LabelsAreLower(n[1..]);
    }
  }

  // ----- Addresses ----------------------------------------------------------------------

  /** A label is an octet exactly if it is a number up to 255 as `to_string` writes it. */
  lemma OctetExactly(s: string)
    ensures IsOctet(s) <==> exists n: nat :: n <= 255 && s == Decimal(n)
  {
    if IsOctet(s) {
      NumberWritesBack(s);
      assert s == Decimal(Number(s));
    }
    forall n: nat | n <= 255 && s == Decimal(n) ensures IsOctet(s) {
      DigitsReadBack(n);
      NoLeadingZero(n);
    }
  }

  lemma NoLeadingZero(n: nat)
    requires n <= 255
    ensures 1 <= |Digits(n)| <= 3 && (|Digits(n)| > 1 ==> Digits(n)[0] != '0')
  {
    if n >= 10 {
      assert Digits(n)[0] == Digits(n / 10)[0];
      if n >= 100 {
        assert Digits(n / 10)[0] == Digits(n / 100)[0] == Digit(n / 100);
      } else {
        assert Digits(n / 10)[0] == Digit(n / 10);
      }
    }
  }

  /** Writing the number that digits without a leading zero stand for gives them back. */
  lemma {:induction false} NumberWritesBack(s: string)
    requires s != "" && (forall i | 0 <= i < |s| :: IsDigit(s[i])) && (|s| > 1 ==> s[0] != '0')
    ensures Digits(Number(s)) == s
    ensures s[0] != '0' ==> Number(s) > 0
  {
    var last := |s| - 1;
    if last > 0 {
      NumberWritesBack(s[..last]);
      assert Number(s) / 10 == Number(s[..last]) && Number(s) % 10 == DigitValue(s[last]);
    } else {
      assert s[..0] == "";
    }
    assert s == s[..last] + [s[last]];
  }

  lemma {:induction false} LabelsFront(a: string, rest: string)
    requires '.' !in a
    ensures Labels(a) == [a]
    ensures Labels(a + "." + rest) == [a] + Labels(rest)
  {
    if a == "" {
      assert (a + "." + rest)[1..] == rest;
    } else {
      LabelsFront(a[1..], rest);
      assert a[0] in a && a == [a[0]] + a[1..];
      assert (a + "." + rest)[1..] == a[1..] + "." + rest;
    }
  }

  lemma OctetWritten(n: nat)
    requires n <= 255
    ensures IsOctet(Decimal(n)) && '.' !in Decimal(n)
  {
    OctetExactly(Decimal(n));
  }

  lemma {:induction false} LabelsOfJoin(labels: seq<string>)
    requires labels != [] && forall l | l in labels :: '.' !in l
    ensures Labels(Join(labels)) == labels
  {
    if |labels| == 1 {
      LabelsFront(labels[0], "");
    } else {
      LabelsOfJoin(labels[1..]);
      LabelsFront(labels[0], Join(labels[1..]));
    }
  }

  /** The names refused as addresses are those that four numbers up to 255 spell. */
  lemma AddressExactly(n: string)
    ensures IsIpv4(n) <==> IsAddress(n)
  {
    var labels := Labels(n);
    if IsIpv4(n) {
      forall i | 0 <= i < 4 ensures exists k: nat :: k <= 255 && labels[i] == Decimal(k) {
        assert labels[i] in labels;
        OctetExactly(labels[i]);
      }
      var a: nat :| a <= 255 && labels[0] == Decimal(a);
      var b: nat :| b <= 255 && labels[1] == Decimal(b);
      var c: nat :| c <= 255 && labels[2] == Decimal(c);
      var d: nat :| d <= 255 && labels[3] == Decimal(d);
      JoinOfLabels(n);
      assert labels == [Decimal(a), Decimal(b), Decimal(c), Decimal(d)];
      assert IsDotted(n, a, b, c, d);
    }
    if IsAddress(n) {
      var a: nat, b: nat, c: nat, d: nat :| IsDotted(n, a, b, c, d);
      OctetWritten(a);
      OctetWritten(b);
      OctetWritten(c);
      OctetWritten(d);
      LabelsOfJoin([Decimal(a), Decimal(b), Decimal(c), Decimal(d)]);
    }
  }

  /** What `normalize_domain` checks, for a name already in lower case. */
  lemma ChecksAreValidName(n: string)
    requires forall k | 0 <= k < |n| :: Lower(n[k]) == n[k]
    ensures !(n == "" || |n| > 253 || IsIpv4(n) || exists l | l in Labels(n) :: BadLabel(l)) <==> ValidName(n)
  {
    LabelsAreLower(n);
    AddressExactly(n);
    forall i | 0 <= i < |Labels(n)| ensures BadLabel(Labels(n)[i]) <==> !ValidLabel(Labels(n)[i]) {
      LabelTest(Labels(n)[i]);
    }
    if exists l | l in Labels(n) :: BadLabel(l) {
      var l :| l in Labels(n) && BadLabel(l);
      var i :| 0 <= i < |Labels(n)| && Labels(n)[i] == l;
    }
  }

  /** `normalize_domain` accepts `value` as `n` exactly if `n` is a valid name that `value` spells. */
  lemma NormalizeDomainExactly(value: string, n: string)
    ensures NormalizeDomain(value) == Success(n) <==> ValidName(n) && Spells(value, n)
  {
    var core := LowerAll(StripDot(Trim(value)));
    ChecksAreValidName(core);
    if NormalizeDomain(value) == Success(n) {
      var before, after := TrimSplits(value);
      var spelling := StripDot(Trim(value));
      var dot := if spelling == Trim(value) then "" else ".";
      assert IsSpelling(value, n, before, spelling, dot, after);
    }
    if ValidName(n) && Spells(value, n) {
      var before, spelling, dot, after :| IsSpelling(value, n, before, spelling, dot, after);
      SpellingIsStripped(value, n, before, spelling, dot, after);
    }
  }

  lemma SpellingEnds(spelling: string, n: string)
    requires ValidName(n) && LowerAll(spelling) == n
    ensures spelling != "" && IsAlphanumeric(spelling[0]) && IsAlphanumeric(spelling[|spelling| - 1])
  {
    NameChars(n);
    assert n[0] == Lower(spelling[0]) && n[|n| - 1] == Lower(spelling[|n| - 1]);
  }

  lemma SpellingIsStripped(value: string, n: string, before: string, spelling: string, dot: string, after: string)
    requires ValidName(n) && IsSpelling(value, n, before, spelling, dot, after)
    ensures StripDot(Trim(value)) == spelling
  {
    SpellingEnds(spelling, n);
    assert value == before + (spelling + dot) + after;
    TrimOf(before, spelling + dot, after);
    assert (spelling + dot)[..|spelling|] == spelling;
  }

  /** Inputs that differ only in case, white space around the name or one dot after it agree. */
  lemma SameSpellingSameName(value: string, other: string, n: string)
    requires NormalizeDomain(value) == Success(n)
    ensures NormalizeDomain(other) == Success(n) <==> Spells(other, n)
  {
    NormalizeDomainExactly(value, n);
    NormalizeDomainExactly(other, n);
  }

  lemma SpellsItself(n: string)
    requires LowerAll(n) == n
    ensures Spells(n, n)
  {
    assert n == "" + n + "" + "";
    assert IsSpelling(n, n, "", n, "", "");
  }

  lemma NormalizeDomainIdempotent(value: string)
    ensures NormalizeDomain(value).Success? ==> NormalizeDomain(NormalizeDomain(value).value) == NormalizeDomain(value)
  {
    if NormalizeDomain(value).Success? {
      var n := NormalizeDomain(value).value;
      NormalizeDomainExactly(value, n);
      NameChars(n);
      LowerIsIdentity(n);
      SpellsItself(n);
      NormalizeDomainExactly(n, n);
    }
  }

  // ----- Patterns -----------------------------------------------------------------------

  lemma BlankStarts(before: string, s: string)
    ensures before != "" && Blank(before) ==> IsWhitespace((before + s)[0])
  {
  }

  lemma WildcardSpelled(value: string, d: string)
    requires ValidName(d) && Spells(value, "*." + d)
    ensures "*." <= Trim(value) && Spells(Trim(value)[2..], d) && |Trim(value)| > 2 && !IsWhitespace(Trim(value)[2])
  {
    var trimmed := Trim(value);
    var before, spelling, dot, after :| IsSpelling(value, "*." + d, before, spelling, dot, after);
    var name := spelling[2..];
    assert LowerAll(spelling)[0] == '*' && LowerAll(spelling)[1] == '.';
    assert LowerAll(name) == LowerAll(spelling)[2..] == d;
    SpellingEnds(name, d);
    assert value == before + (spelling + dot) + after;
    TrimOf(before, spelling + dot, after);
    assert trimmed[2..] == "" + name + dot + "";
    assert IsSpelling(trimmed[2..], d, "", name, dot, "");
  }

  lemma SuffixSpelled(value: string, d: string)
    requires ValidName(d) && "*." <= Trim(value) && Spells(Trim(value)[2..], d)
    requires |Trim(value)| > 2 ==> !IsWhitespace(Trim(value)[2])
    ensures Spells(value, "*." + d)
  {
    var suffix := Trim(value)[2..];
    var blank, name, dot, rest :| IsSpelling(suffix, d, blank, name, dot, rest);
    SpellingEnds(name, d);
    BlankStarts(blank, name + dot + rest);
    assert suffix == blank + (name + dot + rest);
    var before, after := TrimSplits(value);
    assert LowerAll("*." + name) == "*." + d;
    assert Trim(value) == "*." + suffix;
    assert value == before + ("*." + name) + dot + (rest + after);
    assert IsSpelling(value, "*." + d, before, "*." + name, dot, rest + after);
  }

  lemma PlainSpelling(value: string, n: string)
    requires ValidName(n) && Spells(value, n)
    ensures !("*." <= Trim(value))
  {
    var before, spelling, dot, after :| IsSpelling(value, n, before, spelling, dot, after);
    SpellingIsStripped(value, n, before, spelling, dot, after);
    SpellingEnds(spelling, n);
    assert Trim(value)[0] == spelling[0];
  }

  /** `normalize_pattern` accepts `value` as `p` exactly if `p` is a valid name or wildcard that `value` spells. */
  lemma NormalizePatternExactly(value: string, p: string)
    ensures NormalizePattern(value) == Success(p) <==> ValidPattern(p) && Spells(value, p)
  {
    var trimmed := Trim(value);
    if "*." <= trimmed {
      var suffix := trimmed[2..];
      if "*." <= p {
        var d := p[2..];
        assert p == "*." + d;
        NormalizeDomainExactly(suffix, d);
        if ValidName(d) {
          if Spells(value, p) {
            WildcardSpelled(value, d);
          }
          if Spells(suffix, d) && (|trimmed| > 2 ==> !IsWhitespace(trimmed[2])) {
            SuffixSpelled(value, d);
          }
        }
      } else if ValidPattern(p) && Spells(value, p) {
        PlainSpelling(value, p);
      }
    } else {
      NormalizeDomainExactly(value, p);
      if "*." <= p {
        var d := p[2..];
        assert p == "*." + d;
        if ValidName(p) {
          NameChars(p);
        }
        if ValidName(d) && Spells(value, p) {
          WildcardSpelled(value, d);
        }
      }
    }
  }

  lemma NormalizePatternIdempotent(value: string)
    ensures NormalizePattern(value).Success? ==>
      NormalizePattern(NormalizePattern(value).value) == NormalizePattern(value)
  {
    if NormalizePattern(value).Success? {
      var p := NormalizePattern(value).value;
      NormalizePatternExactly(value, p);
      var d := if "*." <= p then p[2..] else p;
      NameChars(d);
      forall k | 0 <= k < |p| ensures Lower(p[k]) == p[k] {
        if "*." <= p && k >= 2 {
          assert p[k] == d[k - 2];
        }
      }
      assert LowerAll(p) == p;
      SpellsItself(p);
      NormalizePatternExactly(p, p);
    }
  }

  /** Only http and https rules carry a domain; anything accepted is a valid pattern or the empty domain. */
  lemma ValidateRouteExactly(kind: string, domain: string, accepted: string)
    ensures ValidateRoute(kind, domain) == Success(accepted) <==>
      if kind in ["http", "https"] then ValidPattern(accepted) && Spells(domain, accepted)
      else kind in ["tcp", "udp"] && domain == "" && accepted == ""
  {
    NormalizePatternExactly(domain, accepted);
  }

  // ----- Choosing a route ---------------------------------------------------------------

  /** The scan over the dots of the host, left to right. */
  function Scan<T>(routes: map<string, T>, host: string, from: nat): Option<T>
    requires from <= |host|
    decreases |host| - from
  {
    if from == |host| then None
    else if host[from] == '.' && "*" + host[from..] in routes then Some(routes["*" + host[from..]])
    else Scan(routes, host, from + 1)
  }

  function FindRoute<T>(routes: map<string, T>, host: string): Option<T> {
    if host in routes then Some(routes[host]) else Scan(routes, host, 0)
  }

  /** A key covers a host if it is the host, or a wildcard over all but one or more leading labels of it. */
  ghost predicate Covers(key: string, host: string) {
    key == host || exists k :: WildcardOver(key, host, k)
  }

  ghost predicate WildcardOver(key: string, host: string, k: int) {
    1 <= k < |Labels(host)| && key == "*." + Join(Labels(host)[k..])
  }

  /** The exact key beats every wildcard, and a longer wildcard beats a shorter one. */
  predicate Beats(key: string, other: string, host: string) {
    key == host || (other != host && |key| >= |other|)
  }

  ghost predicate IsBest<T>(routes: map<string, T>, host: string, key: string) {
    key in routes && Covers(key, host)
    && forall other | other in routes && Covers(other, host) :: Beats(key, other, host)
  }

  lemma {:induction false} JoinOfLabels(s: string)
    ensures Join(Labels(s)) == s
  {
    if s != "" {
      JoinOfLabels(s[1..]);
      var labels, rest := Labels(s), Labels(s[1..]);
      if s[0] == '.' {
        assert labels[1..] == rest;
      } else if |rest| > 1 {
        assert labels[1..] == rest[1..];
      }
    }
  }

  /** Position `i` holds the dot before the last labels from `k` on. */
  ghost predicate DotBefore(host: string, i: int, k: int) {
    0 <= i < |host| && host[i] == '.' && 1 <= k < |Labels(host)| && Labels(host)[k..] == Labels(host[i + 1..])
  }

  lemma {:induction false} LabelOfDot(host: string, i: nat) returns (k: int)
    requires i < |host| && host[i] == '.'
    ensures DotBefore(host, i, k)
  {
    var rest := host[1..];
    if i == 0 {
      k := 1;
      assert Labels(host)[1..] == Labels(rest);
    } else {
      var j := LabelOfDot(rest, i - 1);
      assert rest[i..] == host[i + 1..];
      k := if host[0] == '.' then j + 1 else j;
      assert Labels(host)[k..] == Labels(rest)[j..];
    }
  }

  lemma {:induction false} DotOfLabel(host: string, k: int) returns (i: int)
    requires 1 <= k < |Labels(host)|
    ensures DotBefore(host, i, k)
  {
    var rest := host[1..];
    if host[0] == '.' && k == 1 {
      i := 0;
      assert Labels(host)[1..] == Labels(rest);
    } else {
      var j := if host[0] == '.' then k - 1 else k;
      var at := DotOfLabel(rest, j);
      i := at + 1;
      assert rest[at + 1..] == host[i + 1..];
      assert Labels(host)[k..] == Labels(rest)[j..];
    }
  }

  /** The keys the scan tries: a star before a suffix that starts with a dot. */
  ghost predicate DotSuffix(key: string, host: string, i: int) {
    0 <= i < |host| && host[i] == '.' && key == "*" + host[i..]
  }

  lemma StarBeforeDot(host: string, i: nat)
    requires i < |host| && host[i] == '.'
    ensures "*" + host[i..] == "*." + host[i + 1..]
  {
    assert host[i..] == "." + host[i + 1..];
  }

  lemma WildcardHasDot(key: string, host: string, k: int) returns (i: int)
    requires WildcardOver(key, host, k)
    ensures DotSuffix(key, host, i)
  {
    i := DotOfLabel(host, k);
    JoinOfLabels(host[i + 1..]);
    StarBeforeDot(host, i);
  }

  lemma DotHasWildcard(key: string, host: string, i: int) returns (k: int)
    requires DotSuffix(key, host, i)
    ensures WildcardOver(key, host, k)
  {
    k := LabelOfDot(host, i);
    JoinOfLabels(host[i + 1..]);
    StarBeforeDot(host, i);
  }

  lemma WildcardIsDotSuffix(key: string, host: string)
    ensures (exists k :: WildcardOver(key, host, k)) <==> exists i :: DotSuffix(key, host, i)
  {
    if k :| WildcardOver(key, host, k) {
      var i := WildcardHasDot(key, host, k);
    }
    if i :| DotSuffix(key, host, i) {
      var k := DotHasWildcard(key, host, i);
    }
  }

  /** The scan finds the first dot whose suffix has a rule. */
  lemma {:induction false} ScanFindsFirst<T>(routes: map<string, T>, host: string, from: nat)
    requires from <= |host|
    ensures match Scan(routes, host, from)
      case None => forall i | from <= i < |host| && host[i] == '.' :: "*" + host[i..] !in routes
      case Some(v) => exists i ::
        && from <= i < |host| && host[i] == '.' && "*" + host[i..] in routes && v == routes["*" + host[i..]]
        && forall j | from <= j < i && host[j] == '.' :: "*" + host[j..] !in routes
    decreases |host| - from
  {
    if from < |host| && !(host[from] == '.' && "*" + host[from..] in routes) {
      ScanFindsFirst(routes, host, from + 1);
    }
  }

  /** For every route table and host, the result is the value of a best covering key, and there is
      none exactly if no key covers the host. */
  lemma FindRouteIsBest<T>(routes: map<string, T>, host: string)
    ensures FindRoute(routes, host).None? <==> forall key | key in routes :: !Covers(key, host)
    ensures FindRoute(routes, host).Some? ==>
      exists key :: IsBest(routes, host, key) && FindRoute(routes, host).value == routes[key]
  {
    forall key ensures Covers(key, host) <==> key == host || exists i :: DotSuffix(key, host, i) {
      WildcardIsDotSuffix(key, host);
    }
    if host in routes {
      assert IsBest(routes, host, host);
    } else {
      ScanFindsFirst(routes, host, 0);
      if FindRoute(routes, host).Some? {
        var i :| 0 <= i < |host| && host[i] == '.' && "*" + host[i..] in routes
          && FindRoute(routes, host).value == routes["*" + host[i..]]
                 && forall j | 0 <= j < i && host[j] == '.' :: "*" + host[j..] !in routes;
        assert DotSuffix("*" + host[i..], host, i);
        assert IsBest(routes, host, "*" + host[i..]);
      } else {
        forall key | key in routes ensures !Covers(key, host) {
          if i :| DotSuffix(key, host, i) {
            assert false;
          }
        }
      }
    }
  }

  /** There is never more than one best key. */
  lemma BestIsUnique<T>(routes: map<string, T>, host: string, key: string, other: string)
    requires IsBest(routes, host, key) && IsBest(routes, host, other)
    ensures key == other
  {
    WildcardIsDotSuffix(key, host);
    WildcardIsDotSuffix(other, host);
    if key != host && other != host {
      var i :| DotSuffix(key, host, i);
      var j :| DotSuffix(other, host, j);
    }
  }

  /** A wildcard never covers its own apex. */
  lemma ApexIsNotCovered(apex: string)
    ensures !Covers("*." + apex, apex)
  {
    WildcardIsDotSuffix("*." + apex, apex);
    forall i ensures !DotSuffix("*." + apex, apex, i) {
    }
  }
}
