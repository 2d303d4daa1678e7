/**
 * Reading the include strings of a filter (include and its regular expression in
 * goperation/manager/rpc/server/utils.py).
 */
module Includes {
  import opened Wrappers

  /** What agents report about themselves. */
  datatype Value = NoneValue | Int(n: int) | Text(s: string) | Dict(entries: map<string, Value>)

  datatype Error = InvalidArgument | AttributeError | KeyError | OperatorError | NotNumber

  /** A key such as a.b.c, split at its dots; a missing key is []. */
  type Key = seq<string>

  datatype Operator = Lt | Gt | Eq | Ne | Le | Ge | And | Or | Mod

  datatype Clause = Clause(target: Key, operator: Operator, baseline: Value)

  // ---- the regular expression ----

  predicate IsLetter(c: char) {
    'a' <= c <= 'z' || 'A' <= c <= 'Z'
  }

  predicate IsDigit(c: char) {
    '0' <= c <= '9'
  }

  predicate InKey(c: char) {
    IsLetter(c) || IsDigit(c) || c == '-' || c == '.' || c == '_'
  }

  /** The last character of a key: the class of the expression has 0-1 where one may expect 0-9. */
  predicate EndsKey(c: char) {
    IsLetter(c) || c == '0' || c == '1'
  }

  predicate InComparison(c: char) {
    c == '<' || c == '>' || c == '!' || c == '='
  }

  predicate InOperator(c: char) {
    InComparison(c) || c == '&' || c == '%' || c == '|'
  }

  predicate InValue(c: char) {
    IsLetter(c) || IsDigit(c) || c == '.' || c == '_'
  }

  predicate All(s: string, p: char -> bool) {
    forall c :: c in s ==> p(c)
  }

  predicate Only(s: string, c: char) {
    forall d :: d in s ==> d == c
  }

  predicate IsKey(k: string) {
    k != "" && All(k, InKey) && EndsKey(k[|k| - 1])
  }

  predicate IsOperator(o: string) {
    && o != ""
    && (All(o, InComparison) || Only(o, '&') || Only(o, '%') || Only(o, '|'))
  }

  predicate IsValue(v: string) {
    v != "" && All(v, InValue)
  }

  /** The three groups of a match, each empty if it took no part; a final newline may be left over. */
  datatype Match = Match(key: string, operator: string, value: string, end: string)

  predicate IsMatch(s: string, m: Match) {
    && s == m.key + m.operator + m.value + m.end
    && (m.key == "" || IsKey(m.key))
    && (m.operator == "" || IsOperator(m.operator))
    && (m.value == "" || IsValue(m.value))
    && (m.end == "" || m.end == "\n")
  }

  /** The matcher finds one of the matches of a string, if there is one. */
  type Matcher = string -> Option<Match>

  ghost predicate IsMatcher(matcher: Matcher) {
    forall s :: Finds(matcher, s)
  }

  ghost predicate Finds(matcher: Matcher, s: string) {
    match matcher(s)
    case Some(m) => IsMatch(s, m)
    case None => !Matches(s)
  }

  ghost predicate Matches(s: string) {
    exists m :: IsMatch(s, m)
  }

  /** The classes of the expression, and which characters of a key cannot be its last. */
  lemma CharacterClasses(c: char)
    ensures IsLetter(c) <==> c in "abcdefghijklmnopqrstuvwxyz" || c in "ABCDEFGHIJKLMNOPQRSTUVWXYZ"
    ensures IsDigit(c) <==> c in "0123456789"
    ensures InKey(c) && !EndsKey(c) <==> c in "23456789-._"
    ensures EndsKey(c) ==> InKey(c)
    ensures InOperator(c) <==> c in "<>!=&%|"
    ensures InValue(c) <==> InKey(c) && c != '-'
  {
  }

  // ---- what a match means ----

  function OperatorOf(o: string): Option<Operator> {
    if o == "<" then Some(Lt) else if o == ">" then Some(Gt) else if o == "=" then Some(Eq)
    else if o == "!=" then Some(Ne) else if o == "<=" then Some(Le) else if o == ">=" then Some(Ge)
    else if o == "&" then Some(And) else if o == "|" then Some(Or) else if o == "%" then Some(Mod) else None
  }

  function Symbol(op: Operator): string {
    match op
    case Lt => "<" case Gt => ">" case Eq => "=" case Ne => "!=" case Le => "<=" case Ge => ">="
    case And => "&" case Or => "|" case Mod => "%"
  }

  /** key.split('.'). */
  function Split(s: string): (r: Key)
    ensures r != []
  {
    if s == "" then [""]
    else
      var rest := Split(s[1..]);
      if s[0] == '.' then [""] + rest else [[s[0]] + rest[0]] + rest[1..]
  }

  function Join(key: Key): string {
    if key == [] then "" else if |key| == 1 then key[0] else key[0] + "." + Join(key[1..])
  }

  /** Splitting loses nothing, and leaves no dot. */
  lemma {:induction false} SplitJoins(s: string)
    ensures Join(Split(s)) == s
    ensures forall part :: part in Split(s) ==> '.' !in part
  {
    if s != "" {
      var rest := Split(s[1..]);
      SplitJoins(s[1..]);
      if s[0] == '.' {
        assert ([""] + rest)[1..] == rest;
        assert s == "." + s[1..];
      } else {
        var r := [[s[0]] + rest[0]] + rest[1..];
        assert r[1..] == rest[1..];
        assert s == [s[0]] + s[1..];
        assert forall part :: part in r ==> part == r[0] || part in rest;
      }
    }
  }

  /** A part without a dot, alone or before a dot, is split off as it is. */
  lemma {:induction false} SplitsOff(part: string, rest: string)
    requires '.' !in part
    ensures Split(part) == [part] && Split(part + "." + rest) == [part] + Split(rest)
  {
    if part == "" {
      assert part + "." + rest == "." + rest;
    } else {
      SplitsOff(part[1..], rest);
      assert (part + "." + rest)[1..] == part[1..] + "." + rest;
      assert [part[0]] + part[1..] == part;
    }
  }

  /** So splitting is the inverse of joining parts without dots. */
  lemma {:induction false} SplitOfJoin(parts: Key)
    requires parts != [] && forall part :: part in parts ==> '.' !in part
    ensures Split(Join(parts)) == parts
  {
    if |parts| == 1 {
      SplitsOff(parts[0], "");
      assert parts == [parts[0]];
    } else {
      SplitOfJoin(parts[1..]);
      SplitsOff(parts[0], Join(parts[1..]));
      assert parts == [parts[0]] + parts[1..];
    }
  }

  function Decimal(v: string): int {
    if v == "" then 0 else Decimal(v[..|v| - 1]) * 10 + (v[|v| - 1] as int - '0' as int)
  }

  function Baseline(v: string): Value {
    if v != "" && All(v, IsDigit) then Int(Decimal(v)) else Text(v)
  }

  /** A number as text. */
  function DigitsOf(n: nat): string {
    if n < 10 then [(n + '0' as int) as char] else DigitsOf(n / 10) + [(n % 10 + '0' as int) as char]
  }

  /** A value of digits is read as the number it is the text of; any other value is kept as text. */
  lemma NumbersAreRead(n: nat, v: string)
    ensures Baseline(DigitsOf(n)) == Int(n)
    ensures v != "" ==> (Baseline(v) == Text(v) <==> exists c :: c in v && !IsDigit(c))
  {
    DecimalOfDigits(n);
  }

  lemma {:induction false} DecimalOfDigits(n: nat)
    ensures DigitsOf(n) != "" && All(DigitsOf(n), IsDigit) && Decimal(DigitsOf(n)) == n
  {
    if n >= 10 {
      DecimalOfDigits(n / 10);
      var front := DigitsOf(n / 10);
      var text := DigitsOf(n);
      assert text[..|text| - 1] == front;
    }
  }

  /** An operator that is not in the table, or missing, is a KeyError; a missing value has no isdigit. */
  function Reading(m: Match): Result<Clause, Error> {
    match OperatorOf(m.operator)
    case None => Err(KeyError)
    case Some(op) =>
      if m.value == "" then Err(AttributeError)
      else Ok(Clause(if m.key == "" then [] else Split(m.key), op, Baseline(m.value)))
  }

  /** Which error a match ends in: its operator is none of the nine, or it has no value. */
  lemma ReadingFails(m: Match)
    ensures Reading(m) == Err(KeyError) <==> forall op :: Symbol(op) != m.operator
    ensures Reading(m) == Err(AttributeError) <==> m.value == "" && exists op :: Symbol(op) == m.operator
    ensures Reading(m).Err? ==> Reading(m).error in {KeyError, AttributeError}
  {
    if OperatorOf(m.operator).Some? {
      assert Symbol(OperatorOf(m.operator).value) == m.operator;
    }
    forall op ensures OperatorOf(Symbol(op)) == Some(op) {
      SymbolsRead(op);
    }
    hide Split, Baseline;
  }

  ghost function Read(s: string): Result<Clause, Error> {
    if Matches(s) then
      var m :| IsMatch(s, m);
      Reading(m)
    else Err(InvalidArgument)
  }

  /** Three parts of these characters, and a newline or nothing. */
  ghost predicate InParts(s: string, m: Match) {
    && s == m.key + m.operator + m.value + m.end
    && All(m.key, InKey) && All(m.operator, InOperator) && All(m.value, InValue)
    && (m.end == "" || m.end == "\n")
  }

  lemma MatchInParts(s: string, m: Match)
    requires IsMatch(s, m)
    ensures InParts(s, m)
  {
  }

  lemma OperatorAt(s: string, m: Match, i: nat)
    requires InParts(s, m) && i < |s|
    ensures InOperator(s[i]) <==> |m.key| <= i < |m.key| + |m.operator|
  {
    hide InKey, InOperator, InValue;
    var k, o, v := |m.key|, |m.operator|, |m.value|;
    if i < k {
      assert s[i] == m.key[i];
      NotOperator(s[i]);
    } else if i < k + o {
      assert s[i] == m.operator[i - k];
    } else if i < k + o + v {
      assert s[i] == m.value[i - k - o];
      NotOperator(s[i]);
    } else {
      assert s[i] == m.end[i - k - o - v];
      NotOperator(s[i]);
    }
  }

  lemma NotOperator(c: char)
    ensures InKey(c) || InValue(c) || c == '\n' ==> !InOperator(c)
  {
  }

  lemma FirstOperator(s: string, m: Match, n: Match)
    requires InParts(s, m) && InParts(s, n) && m.operator != ""
    ensures |n.key| <= |m.key| && |m.key| + |m.operator| <= |n.key| + |n.operator|
  {
    OperatorAt(s, n, |m.key|);
    OperatorAt(s, m, |m.key|);
    OperatorAt(s, n, |m.key| + |m.operator| - 1);
    OperatorAt(s, m, |m.key| + |m.operator| - 1);
  }

  lemma PartsOf(s: string, m: Match)
    requires InParts(s, m)
    ensures var k, o := |m.key|, |m.operator|;
            && k + o <= |s| && m.key == s[..k] && m.operator == s[k..k + o] && s[k + o..] == m.value + m.end
    ensures All(m.value, InValue) && (m.end == "" || m.end == "\n")
  {
    var k, o, rest := |m.key|, |m.operator|, m.value + m.end;
    assert s == m.key + m.operator + rest;
    hide InParts, All;
    assert s == m.key + (m.operator + rest);
  }

  /** The parts are unique if there is an operator among them. */
  lemma PartsAreUnique(s: string, m: Match, n: Match)
    requires InParts(s, m) && InParts(s, n) && m.operator != ""
    ensures m == n
  {
    FirstOperator(s, m, n);
    FirstOperator(s, n, m);
    var k, o := |m.key|, |m.operator|;
    PartsOf(s, m);
    PartsOf(s, n);
    hide InParts;
    SameEnd(s[k + o..], m.value, m.end, n.value, n.end);
  }

  lemma SameEnd(s: string, v: string, e: string, w: string, f: string)
    requires s == v + e == w + f && All(v, InValue) && All(w, InValue)
    requires (e == "" || e == "\n") && (f == "" || f == "\n")
    ensures v == w && e == f
  {
    assert '\n' !in v && '\n' !in w;
    assert e != f ==> '\n' in s && (s == v || s == w);
    assert |v| == |w|;
    assert v == s[..|v|] == w;
  }

  /** So it does not matter which groups the matcher prefers: all matches of a string are read in the same way. */
  lemma SameReading(s: string, m: Match)
    requires IsMatch(s, m)
    ensures Read(s) == Reading(m)
  {
    var n :| IsMatch(s, n) && Read(s) == Reading(n);
    MatchInParts(s, m);
    MatchInParts(s, n);
    assert OperatorOf("").None?;
    hide InParts, IsMatch, OperatorOf, Split, Baseline;
    if m.operator != "" {
      PartsAreUnique(s, m, n);
    } else if n.operator != "" {
      PartsAreUnique(s, n, m);
    } else {
      assert m.operator == "" && n.operator == "";
      assert Reading(m) == Err(KeyError) && Reading(n) == Err(KeyError);
    }
  }

  /**
   * A key, an operator and a value, written one after the other, are read back if and only if the
   * key is missing or ends in a letter, in 0 or in 1; otherwise the string is refused.
   */
  lemma ReadsBack(key: string, op: Operator, value: string)
    requires All(key, InKey) && IsValue(value)
    ensures Read(key + Symbol(op) + value)
         == if key == "" || EndsKey(key[|key| - 1])
            then Ok(Clause(if key == "" then [] else Split(key), op, Baseline(value)))
            else Err(InvalidArgument)
  {
    var s, m := key + Symbol(op) + value, Match(key, Symbol(op), value, "");
    SymbolsRead(op);
    hide Symbol, OperatorOf, InOperator, IsOperator, InKey, InValue, EndsKey, Split, Baseline;
    assert s == s + "";
    if key == "" || EndsKey(key[|key| - 1]) {
      SameReading(s, m);
    } else {
      forall n ensures !IsMatch(s, n) {
        OnlyMatch(s, m, n);
      }
    }
  }

  lemma SymbolsRead(op: Operator)
    ensures OperatorOf(Symbol(op)) == Some(op)
    ensures IsOperator(Symbol(op)) && All(Symbol(op), InOperator)
  {
  }

  lemma OnlyMatch(s: string, m: Match, n: Match)
    requires InParts(s, m) && m.operator != ""
    ensures IsMatch(s, n) ==> m == n
  {
    if IsMatch(s, n) {
      MatchInParts(s, n);
      PartsAreUnique(s, m, n);
    }
  }

  // ---- grouping the clauses ----

  type Groups = map<Key, seq<Clause>>

  function Matching(clauses: seq<Clause>, key: Key): seq<Clause> {
    if clauses == [] then []
    else
      var last := clauses[|clauses| - 1];
      Matching(clauses[..|clauses| - 1], key) + if last.target == key then [last] else []
  }

  /** The clauses by key, in their order. */
  ghost predicate IsGrouping(groups: Groups, clauses: seq<Clause>) {
    && (forall k :: k in groups <==> Matching(clauses, k) != [])
    && (forall k :: k in groups ==> groups[k] == Matching(clauses, k))
  }

  lemma GroupingStep(groups: Groups, clauses: seq<Clause>, c: Clause)
    requires IsGrouping(groups, clauses)
    ensures IsGrouping(groups[c.target := (if c.target in groups then groups[c.target] else []) + [c]], clauses + [c])
  {
    var more := clauses + [c];
    assert more[..|more| - 1] == clauses;
    assert Matching(more, c.target) == Matching(clauses, c.target) + [c];
    assert forall k :: k != c.target ==> Matching(more, k) == Matching(clauses, k);
  }

  ghost predicate Understood(texts: seq<string>) {
    forall i :: 0 <= i < |texts| ==> Read(texts[i]).Ok?
  }

  ghost function Clauses(texts: seq<string>): (r: seq<Clause>)
    requires Understood(texts)
    ensures |r| == |texts|
  {
    if texts == [] then [] else Clauses(texts[..|texts| - 1]) + [Read(texts[|texts| - 1]).value]
  }

  /** include: it returns exactly if it can read every string, and raises for the first that it cannot. */
  method Include(matcher: Matcher, texts: seq<string>) returns (r: Result<Groups, Error>)
    requires IsMatcher(matcher)
    ensures r.Ok? ==> Understood(texts) && IsGrouping(r.value, Clauses(texts))
    ensures r.Err? ==> exists i :: 0 <= i < |texts| && Understood(texts[..i]) && Read(texts[i]) == Err(r.error)
  {
    var groups: Groups := map[];
    hide Read, IsMatch, Reading;
    for i := 0 to |texts|
      invariant Understood(texts[..i]) && IsGrouping(groups, Clauses(texts[..i]))
    {
      var read := ReadOne(texts[i], matcher);
      if read.Err? {
        return Err(read.error);
      }
      var c := read.value;
      assert texts[..i + 1] == texts[..i] + [texts[i]];
      GroupingStep(groups, Clauses(texts[..i]), c);
      if c.target in groups {
        groups := groups[c.target := groups[c.target] + [c]];
      } else {
        groups := groups[c.target := [c]];
      }
    }
    assert texts[..|texts|] == texts;
    return Ok(groups);
  }

  /** One turn of its loop, up to the clause. */
  method ReadOne(s: string, matcher: Matcher) returns (r: Result<Clause, Error>)
    requires IsMatcher(matcher)
    ensures r == Read(s)
  {
    assert Finds(matcher, s);
    match matcher(s)
    case None => return Err(InvalidArgument);
    case Some(m) =>
      SameReading(s, m);
      return Reading(m);
  }
}
