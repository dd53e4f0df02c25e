/** Substitution of {{name}} placeholders in a workload template, one variable at a
    time, against substitution of all of them at once. */
module Template {
  import opened Wrappers

  // ----- text -----

  /** Replaces every non-overlapping occurrence of a non-empty string, left to right. */
  function ReplaceAll(s: string, pattern: string, replacement: string): string
    requires pattern != ""
    decreases |s|
  {
    if s == "" then ""
    else if pattern <= s then replacement + ReplaceAll(s[|pattern|..], pattern, replacement)
    else [s[0]] + ReplaceAll(s[1..], pattern, replacement)
  }

  function Placeholder(name: string): string {
    "{{" + name + "}}"
  }

  /** A variable name: no braces. */
  predicate IsName(s: string) {
    '{' !in s && '}' !in s
  }

  /** Text that cannot begin a placeholder, whatever follows it: every opening brace is
      followed, within the text, by something else. */
  predicate IsText(s: string) {
    forall i :: 0 <= i < |s| && s[i] == '{' ==> i + 1 < |s| && s[i + 1] != '{'
  }

  // ----- templates -----

  datatype Piece = Text(text: string) | Hole(name: string)

  predicate WellFormed(t: seq<Piece>) {
    forall i :: 0 <= i < |t| ==> if t[i].Text? then IsText(t[i].text) else IsName(t[i].name)
  }

  function Shown(p: Piece): string {
    if p.Text? then p.text else Placeholder(p.name)
  }

  function Render(t: seq<Piece>): string {
    if t == [] then "" else Shown(t[0]) + Render(t[1..])
  }

  /** Fills the holes of one name. */
  function Fill(t: seq<Piece>, name: string, value: string): seq<Piece> {
    seq(|t|, i requires 0 <= i < |t| => if t[i] == Hole(name) then Text(value) else t[i])
  }

  /** Fills all holes that an environment knows. */
  function FillAll(t: seq<Piece>, env: map<string, string>): seq<Piece> {
    seq(|t|, i requires 0 <= i < |t| => if t[i].Hole? && t[i].name in env then Text(env[t[i].name]) else t[i])
  }

  // ----- one replacement -----

  lemma {:induction false} ReplaceSkipsText(text: string, rest: string, name: string, value: string)
    requires IsText(text)
    ensures ReplaceAll(text + rest, Placeholder(name), value) == text + ReplaceAll(rest, Placeholder(name), value)
    decreases |text|
  {
    if text == "" {
      assert text + rest == rest;
    } else {
      var s, hole := text + rest, Placeholder(name);
      assert s[1..] == text[1..] + rest;
      assert hole[0] == '{' && hole[1] == '{';
      assert s[0] == '{' ==> s[1] != '{';
      assert IsText(text[1..]) by {
        forall i | 0 <= i < |text[1..]| && text[1..][i] == '{'
          ensures i + 1 < |text[1..]| && text[1..][i + 1] != '{'
        {
          assert text[i + 1] == '{';
        }
      }
      ReplaceSkipsText(text[1..], rest, name, value);
    }
  }

  lemma ReplaceFillsHole(rest: string, name: string, value: string)
    ensures ReplaceAll(Placeholder(name) + rest, Placeholder(name), value) == value + ReplaceAll(rest, Placeholder(name), value)
  {
    var s := Placeholder(name) + rest;
    assert s[|Placeholder(name)|..] == rest;
    assert Placeholder(name) <= s;
  }

  /** Two placeholders that start at the same place are the same. */
  lemma HolesAgree(name: string, other: string, rest: string)
    requires IsName(name) && IsName(other) && Placeholder(name) <= Placeholder(other) + rest
    ensures name == other
  {
    var hole, s := Placeholder(name), Placeholder(other) + rest;
    assert forall i :: 0 <= i < |name| ==> s[i + 2] == hole[i + 2] == name[i];
    assert forall i :: 0 <= i < |other| ==> s[i + 2] == other[i];
    assert s[|name| + 2] == hole[|name| + 2] == '}' && s[|other| + 2] == '}';
    assert |name| == |other|;
  }

  lemma ReplaceSkipsHole(rest: string, name: string, other: string, value: string)
    requires IsName(name) && IsName(other) && name != other
    ensures ReplaceAll(Placeholder(other) + rest, Placeholder(name), value) ==
              Placeholder(other) + ReplaceAll(rest, Placeholder(name), value)
  {
    var s, tail := Placeholder(other) + rest, "{" + other + "}}";
    assert !(Placeholder(name) <= s) by {
      if Placeholder(name) <= s {
        HolesAgree(name, other, rest);
      }
    }
    assert s[1..] == tail + rest && s[0] == '{';
    assert IsText(tail);
    ReplaceSkipsText(tail, rest, name, value);
    assert [s[0]] + (tail + ReplaceAll(rest, Placeholder(name), value)) ==
           Placeholder(other) + ReplaceAll(rest, Placeholder(name), value);
  }

  /** Replacing a placeholder in the text of a template fills the holes of that name. */
  lemma {:induction false} ReplaceIsFill(t: seq<Piece>, name: string, value: string)
    requires WellFormed(t) && IsName(name)
    ensures ReplaceAll(Render(t), Placeholder(name), value) == Render(Fill(t, name, value))
    decreases |t|
  {
    if t != [] {
      ReplaceIsFill(t[1..], name, value);
      assert Fill(t, name, value)[1..] == Fill(t[1..], name, value);
      var rest := Render(t[1..]);
      if t[0].Text? {
        ReplaceSkipsText(t[0].text, rest, name, value);
      } else if t[0].name == name {
        ReplaceFillsHole(rest, name, value);
      } else {
        ReplaceSkipsHole(rest, name, t[0].name, value);
      }
    }
  }

  // ----- one variable after another -----

  /** Filling one more name after a set of names: what is filled already stays. */
  lemma FillAfterFillAll(t: seq<Piece>, done: map<string, string>, name: string, value: string)
    ensures Fill(FillAll(t, done), name, value) == FillAll(t, map[name := value] + done)
  {
  }

  predicate AllText(env: map<string, string>) {
    forall n :: n in env ==> IsName(n) && IsText(env[n])
  }

  lemma FillAllKeepsWellFormed(t: seq<Piece>, env: map<string, string>)
    requires WellFormed(t) && AllText(env)
    ensures WellFormed(FillAll(t, env))
  {
  }

  /** One replacement in a partly filled template. */
  lemma NextVariable(t: seq<Piece>, done: map<string, string>, name: string, value: string)
    requires WellFormed(t) && AllText(done) && IsName(name)
    ensures ReplaceAll(Render(FillAll(t, done)), Placeholder(name), value) == Render(FillAll(t, map[name := value] + done))
  {
    FillAllKeepsWellFormed(t, done);
    ReplaceIsFill(FillAll(t, done), name, value);
    FillAfterFillAll(t, done, name, value);
  }

  // ----- default values in annotations -----

  /** The text before the first dot, and the text after it if there is one. */
  function Cut(s: string): (string, Option<string>) {
    if s == "" then ("", None)
    else if s[0] == '.' then ("", Some(s[1..]))
    else
      var (head, tail) := Cut(s[1..]);
      ([s[0]] + head, tail)
  }

  /** The variable an annotation gives a default for: the third of its three parts. */
  function DefaultName(key: string): Option<string> {
    var (first, rest) := Cut(key);
    if rest.None? then None
    else
      var (second, third) := Cut(rest.value);
      if first == "cnsbench" && second == "default" then third else None
  }

  const DEFAULT_PREFIX := "cnsbench.default."

  lemma {:induction false} CutJoins(s: string)
    ensures var (head, tail) := Cut(s);
            '.' !in head && s == if tail.Some? then head + "." + tail.value else head
  {
    if s != "" && s[0] != '.' {
      CutJoins(s[1..]);
    }
  }

  lemma {:induction false} CutAt(head: string, tail: string)
    requires '.' !in head
    ensures Cut(head + "." + tail) == (head, Some(tail))
  {
    var s := head + "." + tail;
    if head == "" {
      assert s[1..] == tail;
    } else {
      assert s[1..] == head[1..] + "." + tail;
      CutAt(head[1..], tail);
      assert [head[0]] + head[1..] == head;
    }
  }

  lemma PrefixedKeyHasName(name: string)
    ensures DefaultName(DEFAULT_PREFIX + name) == Some(name)
  {
    CutAt("default", name);
    CutAt("cnsbench", "default" + "." + name);
    assert DEFAULT_PREFIX + name == "cnsbench" + "." + ("default" + "." + name);
  }

  /** The split keys are exactly those with the prefix, whatever follows it. */
  lemma DefaultNameIff(key: string, name: string)
    ensures DefaultName(key) == Some(name) <==> key == DEFAULT_PREFIX + name
  {
    PrefixedKeyHasName(name);
    if DefaultName(key) == Some(name) {
      CutJoins(key);
      CutJoins(Cut(key).1.value);
    }
  }

  ghost function Defaults(annotations: map<string, string>): (m: map<string, string>)
    ensures forall n :: n in m <==> DEFAULT_PREFIX + n in annotations
    ensures forall n :: n in m ==> m[n] == annotations[DEFAULT_PREFIX + n]
  {
    var names := set k | k in annotations && DEFAULT_PREFIX <= k :: k[|DEFAULT_PREFIX|..];
    assert forall k :: DEFAULT_PREFIX <= k ==> k == DEFAULT_PREFIX + k[|DEFAULT_PREFIX|..];
    assert forall n :: (DEFAULT_PREFIX + n)[|DEFAULT_PREFIX|..] == n;
    map n | n in names :: annotations[DEFAULT_PREFIX + n]
  }

  // ----- built-in variables -----

  function Upper(c: char): char {
    if 'a' <= c <= 'z' then (c as int - 32) as char else c
  }

  function ToUpper(s: string): string {
    seq(|s|, i requires 0 <= i < |s| => Upper(s[i]))
  }

  lemma ToUpperKeepsText(s: string)
    requires IsText(s)
    ensures IsText(ToUpper(s))
  {
    assert forall c :: Upper(c) == '{' <==> c == '{';
  }

  function Digits(n: nat): (s: string)
    ensures forall c :: c in s ==> '0' <= c <= '9'
  {
    var d := [('0' as int + n % 10) as char];
    if n < 10 then d else Digits(n / 10) + d
  }

  function Itoa(n: int): (s: string)
    ensures IsText(s)
  {
    if n >= 0 then
      assert '{' !in Digits(n);
      Digits(n)
    else
      assert '{' !in "-" + Digits(-n);
      "-" + Digits(-n)
  }

  /** The number that a string of digits is read as. */
  function Decimal(s: string): int {
    if s == "" then 0 else 10 * Decimal(s[..|s| - 1]) + (s[|s| - 1] as int - '0' as int)
  }

  lemma {:induction false} DigitsRead(n: nat)
    ensures Decimal(Digits(n)) == n && Digits(n) != "" && (n > 0 ==> Digits(n)[0] != '0')
  {
    var d := [('0' as int + n % 10) as char];
    if n < 10 {
      assert d[..0] == "" && d == Digits(n);
    } else {
      DigitsRead(n / 10);
      assert Digits(n)[..|Digits(n)| - 1] == Digits(n / 10);
    }
  }

  /** A number is written as the decimal that is read as it, without leading zeros. */
  lemma ItoaReads(n: int)
    ensures n >= 0 ==> Itoa(n) != "" && Decimal(Itoa(n)) == n && forall c :: c in Itoa(n) ==> c in "0123456789"
    ensures n > 0 ==> Itoa(n)[0] != '0'
    ensures n == 0 ==> Itoa(n) == "0"
    ensures n < 0 ==> Itoa(n) == "-" + Itoa(-n)
  {
    var m := if n >= 0 then n else -n;
    DigitsRead(m);
    var digits := "0123456789";
    forall c | '0' <= c <= '9'
      ensures c in digits
    {
      assert digits[c as int - '0' as int] == c;
    }
    if n == 0 {
      assert Digits(0) == ['0'];
    }
  }

  /** Capitals, letter by letter: as far from A as the small letter is from a. */
  lemma UpperLetters(s: string, i: nat)
    requires i < |s|
    ensures |ToUpper(s)| == |s|
    ensures 'a' <= s[i] <= 'z' ==> 'A' <= ToUpper(s)[i] <= 'Z' && ToUpper(s)[i] as int - 'A' as int == s[i] as int - 'a' as int
    ensures !('a' <= s[i] <= 'z') ==> ToUpper(s)[i] == s[i]
  {
  }

  const ACTION_NAME := "ACTION_NAME"
  const ACTION_NAME_CAPS := "ACTION_NAME_CAPS"
  const INSTANCE_NUM := "INSTANCE_NUM"
  const NUM_INSTANCES := "NUM_INSTANCES"

  lemma BuiltInNames()
    ensures IsName(ACTION_NAME) && IsName(ACTION_NAME_CAPS) && IsName(INSTANCE_NUM) && IsName(NUM_INSTANCES)
  {
  }

  /** An environment with the built-in variables added where it does not have them. */
  function WithBuiltIns(env: map<string, string>, workloadName: string, instanceNum: int, numInstances: int): map<string, string> {
    map[NUM_INSTANCES := Itoa(numInstances)] +
    (map[INSTANCE_NUM := Itoa(instanceNum)] +
     (map[ACTION_NAME_CAPS := ToUpper(workloadName)] +
      (map[ACTION_NAME := workloadName] + env)))
  }

  /** All variables at once: the workload's own come before the defaults from the
      annotations, and those before the built-in ones. */
  ghost function Environment(vars: map<string, string>, annotations: map<string, string>,
                             workloadName: string, instanceNum: int, numInstances: int): map<string, string> {
    WithBuiltIns(Defaults(annotations) + vars, workloadName, instanceNum, numInstances)
  }

  /** The environment has what there was, and the four built-in variables besides. */
  ghost predicate AddsBuiltIns(env: map<string, string>, done: map<string, string>,
                               workloadName: string, instanceNum: int, numInstances: int) {
    && (forall n :: n in done ==> n in env && env[n] == done[n])
    && (forall n :: n in env && n !in done ==> n == "ACTION_NAME" || n == "ACTION_NAME_CAPS" || n == "INSTANCE_NUM" || n == "NUM_INSTANCES")
    && "ACTION_NAME" in env && ("ACTION_NAME" !in done ==> env["ACTION_NAME"] == workloadName)
    && "ACTION_NAME_CAPS" in env && ("ACTION_NAME_CAPS" !in done ==> env["ACTION_NAME_CAPS"] == ToUpper(workloadName))
    && "INSTANCE_NUM" in env && ("INSTANCE_NUM" !in done ==> env["INSTANCE_NUM"] == Itoa(instanceNum))
    && "NUM_INSTANCES" in env && ("NUM_INSTANCES" !in done ==> env["NUM_INSTANCES"] == Itoa(numInstances))
  }

  lemma BuiltInsAreAdded(done: map<string, string>, workloadName: string, instanceNum: int, numInstances: int)
    ensures AddsBuiltIns(WithBuiltIns(done, workloadName, instanceNum, numInstances), done, workloadName, instanceNum, numInstances)
  {
    BuiltInsDiffer();
  }

  lemma BuiltInsDiffer()
    ensures ACTION_NAME != ACTION_NAME_CAPS && ACTION_NAME != INSTANCE_NUM && ACTION_NAME != NUM_INSTANCES
    ensures ACTION_NAME_CAPS != INSTANCE_NUM && ACTION_NAME_CAPS != NUM_INSTANCES && INSTANCE_NUM != NUM_INSTANCES
  {
    assert ACTION_NAME[0] == 'A' && ACTION_NAME_CAPS[0] == 'A' && INSTANCE_NUM[0] == 'I' && NUM_INSTANCES[0] == 'N';
    assert |ACTION_NAME| == 11 && |ACTION_NAME_CAPS| == 16;
  }

  /** What becomes of a piece of the template: a hole is filled with the variable of the
      workload, or else with the default among the annotations, or else with the built-in
      variable of that name, or else stays. */
  ghost predicate Becomes(p: Piece, q: Piece, vars: map<string, string>, annotations: map<string, string>,
                          workloadName: string, instanceNum: int, numInstances: int) {
    match p
    case Text(_) => q == p
    case Hole(name) =>
      if name in vars then q == Text(vars[name])
      else if "cnsbench.default." + name in annotations then q == Text(annotations["cnsbench.default." + name])
      else if name == "ACTION_NAME" then q == Text(workloadName)
      else if name == "ACTION_NAME_CAPS" then q == Text(ToUpper(workloadName))
      else if name == "INSTANCE_NUM" then q == Text(Itoa(instanceNum))
      else if name == "NUM_INSTANCES" then q == Text(Itoa(numInstances))
      else q == p
  }

  lemma HoleBecomes(name: string, env: map<string, string>, vars: map<string, string>, annotations: map<string, string>,
                    workloadName: string, instanceNum: int, numInstances: int)
    requires AddsBuiltIns(env, Defaults(annotations) + vars, workloadName, instanceNum, numInstances)
    ensures Becomes(Hole(name), if name in env then Text(env[name]) else Hole(name),
                    vars, annotations, workloadName, instanceNum, numInstances)
  {
    var defaults, done := Defaults(annotations), Defaults(annotations) + vars;
    if name in vars {
      assert done[name] == vars[name];
    } else if "cnsbench.default." + name in annotations {
      assert done[name] == defaults[name];
    } else {
      assert name !in done;
      if name == "ACTION_NAME" {
      } else if name == "ACTION_NAME_CAPS" {
      } else if name == "INSTANCE_NUM" {
      } else {
      }
    }
  }

  lemma FilledBecomes(t: seq<Piece>, vars: map<string, string>, annotations: map<string, string>,
                      workloadName: string, instanceNum: int, numInstances: int)
    ensures var filled := FillAll(t, Environment(vars, annotations, workloadName, instanceNum, numInstances));
            |filled| == |t| && forall k :: 0 <= k < |t| ==> Becomes(t[k], filled[k], vars, annotations, workloadName, instanceNum, numInstances)
  {
    var env := Environment(vars, annotations, workloadName, instanceNum, numInstances);
    BuiltInsAreAdded(Defaults(annotations) + vars, workloadName, instanceNum, numInstances);
    forall k | 0 <= k < |t|
      ensures Becomes(t[k], FillAll(t, env)[k], vars, annotations, workloadName, instanceNum, numInstances)
    {
      if t[k].Hole? {
        HoleBecomes(t[k].name, env, vars, annotations, workloadName, instanceNum, numInstances);
      }
    }
  }

  /** How a template is written. */
  lemma RendersHole(before: string, name: string, after: string)
    ensures Render([Text(before), Hole(name), Text(after)]) == before + "{{" + name + "}}" + after
  {
    var t := [Text(before), Hole(name), Text(after)];
    assert t[1..] == [Hole(name), Text(after)] && t[1..][1..] == [Text(after)] && [Text(after)][1..] == [];
    assert Render([Text(after)]) == after + "" == after;
    assert Render(t[1..]) == Placeholder(name) + after;
  }

  // ----- what is left over -----

  /** Two opening braces next to each other. */
  predicate HasDoubleBrace(s: string) {
    exists i :: 0 <= i < |s| - 1 && s[i] == '{' && s[i + 1] == '{'
  }

  /** The warning about unset variables is exact: double braces are left in the text
      exactly when a hole is left in the template. */
  lemma {:induction false} WarnsIff(t: seq<Piece>)
    requires WellFormed(t)
    ensures HasDoubleBrace(Render(t)) <==> exists i :: 0 <= i < |t| && t[i].Hole?
    decreases |t|
  {
    if t != [] {
      var head, rest := Shown(t[0]), Render(t[1..]);
      var s := head + rest;
      WarnsIff(t[1..]);
      if t[0].Hole? {
        assert s[0] == '{' && s[1] == '{';
      } else {
        if i :| 0 <= i < |rest| - 1 && rest[i] == '{' && rest[i + 1] == '{' {
          assert s[|head| + i] == '{' && s[|head| + i + 1] == '{';
        }
        if i :| 0 <= i < |s| - 1 && s[i] == '{' && s[i + 1] == '{' {
          assert i >= |head|;
          assert rest[i - |head|] == '{' && rest[i - |head| + 1] == '{';
        }
        assert (exists i :: 0 <= i < |t| && t[i].Hole?) <==> exists i :: 0 <= i < |t[1..]| && t[1..][i].Hole? by {
          if i :| 0 <= i < |t| && t[i].Hole? {
            assert t[1..][i - 1].Hole?;
          }
          if i :| 0 <= i < |t[1..]| && t[1..][i].Hole? {
            assert t[i + 1].Hole?;
          }
        }
      }
    }
  }

  // ----- the chain of replacements -----

  /** The names and values are such that replacements cannot interfere. */
  ghost predicate Harmless(vars: map<string, string>, annotations: map<string, string>, workloadName: string) {
    AllText(vars) && AllText(Defaults(annotations)) && IsText(workloadName)
  }

  /** The text is that of the template with the holes of these variables filled. */
  ghost predicate Shows(s: string, t: seq<Piece>, done: map<string, string>) {
    WellFormed(t) && AllText(done) && s == Render(FillAll(t, done))
  }

  lemma ShowsItself(t: seq<Piece>)
    requires WellFormed(t)
    ensures Shows(Render(t), t, map[])
  {
    assert FillAll(t, map[]) == t;
  }

  method ReplaceOne(cmString: string, name: string, value: string, ghost t: seq<Piece>, ghost done: map<string, string>)
    returns (r: string)
    ensures Shows(cmString, t, done) && IsName(name) && IsText(value) ==> Shows(r, t, map[name := value] + done)
  {
    if Shows(cmString, t, done) && IsName(name) && IsText(value) {
      NextVariable(t, done, name, value);
    }
    r := ReplaceAll(cmString, Placeholder(name), value);
  }

  ghost function Restricted(m: map<string, string>, names: set<string>): map<string, string> {
    map n | n in names && n in m :: m[n]
  }

  lemma RestrictedGrows(m: map<string, string>, names: set<string>, name: string, done: map<string, string>)
    requires name in m
    ensures map[name := m[name]] + (Restricted(m, names) + done) == Restricted(m, names + {name}) + done
  {
  }

  lemma RestrictedEnds(m: map<string, string>, done: map<string, string>)
    ensures Restricted(m, {}) + done == done
    ensures Restricted(m, m.Keys) == m
  {
  }

  /** The variables of a map, replaced in any order. */
  method ReplaceVariables(cmString: string, vars: map<string, string>, ghost t: seq<Piece>, ghost done: map<string, string>)
    returns (r: string)
    ensures Shows(cmString, t, done) && AllText(vars) ==> Shows(r, t, vars + done)
  {
    r := cmString;
    var todo := vars.Keys;
    ghost var seen: set<string> := {};
    RestrictedEnds(vars, done);
    while todo != {}
      invariant seen + todo == vars.Keys
      invariant Shows(cmString, t, done) && AllText(vars) ==> Shows(r, t, Restricted(vars, seen) + done)
      decreases todo
    {
      var name :| name in todo;
      r := ReplaceOne(r, name, vars[name], t, Restricted(vars, seen) + done);
      RestrictedGrows(vars, seen, name, done);
      todo, seen := todo - {name}, seen + {name};
    }
    assert seen == vars.Keys;
  }

  /** The variables with defaults, found by splitting the annotation keys. */
  method DefaultVariables(annotations: map<string, string>) returns (defaults: map<string, string>)
    ensures defaults == Defaults(annotations)
  {
    defaults := map[];
    var todo := annotations.Keys;
    while todo != {}
      invariant todo <= annotations.Keys
      invariant forall n :: n in defaults <==> DEFAULT_PREFIX + n in annotations.Keys - todo
      invariant forall n :: n in defaults ==> defaults[n] == annotations[DEFAULT_PREFIX + n]
      decreases todo
    {
      var k :| k in todo;
      var name := DefaultName(k);
      forall n
        ensures DEFAULT_PREFIX + n == k <==> name == Some(n)
      {
        DefaultNameIff(k, n);
      }
      if name.Some? {
        defaults := defaults[name.value := annotations[k]];
      }
      todo := todo - {k};
    }
  }

  method ReplaceBuiltIns(cmString: string, workloadName: string, instanceNum: int, numInstances: int,
                         ghost t: seq<Piece>, ghost done: map<string, string>)
    returns (r: string)
    ensures Shows(cmString, t, done) && IsText(workloadName) ==>
              Shows(r, t, WithBuiltIns(done, workloadName, instanceNum, numInstances))
    ensures AddsBuiltIns(WithBuiltIns(done, workloadName, instanceNum, numInstances), done, workloadName, instanceNum, numInstances)
  {
    BuiltInNames();
    BuiltInsAreAdded(done, workloadName, instanceNum, numInstances);
    if IsText(workloadName) {
      ToUpperKeepsText(workloadName);
    }
    ghost var env := done;
    r := ReplaceOne(cmString, ACTION_NAME, workloadName, t, env);
    env := map[ACTION_NAME := workloadName] + env;
    r := ReplaceOne(r, ACTION_NAME_CAPS, ToUpper(workloadName), t, env);
    env := map[ACTION_NAME_CAPS := ToUpper(workloadName)] + env;
    r := ReplaceOne(r, INSTANCE_NUM, Itoa(instanceNum), t, env);
    env := map[INSTANCE_NUM := Itoa(instanceNum)] + env;
    r := ReplaceOne(r, NUM_INSTANCES, Itoa(numInstances), t, env);
  }

  /** A variable of the template that nothing defines. */
  ghost predicate LeavesHole(t: seq<Piece>, env: map<string, string>) {
    exists i :: 0 <= i < |t| && t[i].Hole? && t[i].name !in env
  }

  lemma WarnsOfLeftHoles(s: string, t: seq<Piece>, env: map<string, string>)
    requires Shows(s, t, env)
    ensures HasDoubleBrace(s) <==> LeavesHole(t, env)
  {
    var filled := FillAll(t, env);
    FillAllKeepsWellFormed(t, env);
    WarnsIff(filled);
    if i :| 0 <= i < |t| && t[i].Hole? && t[i].name !in env {
      assert filled[i].Hole?;
    }
  }

  /** The whole chain of replacements, on any text, and whether it warns of an unset
      variable.  When the text is that of a template and the names and values are
      harmless, the result is the template with every piece become what it should, and the
      warning says whether a hole is left, whatever order the maps are gone through in. */
  method ReplaceVars(cmString: string, vars: map<string, string>, annotations: map<string, string>,
                     workloadName: string, instanceNum: int, numInstances: int, ghost t: seq<Piece>)
    returns (r: string, warned: bool, ghost filled: seq<Piece>)
    ensures |filled| == |t| &&
            forall k :: 0 <= k < |t| ==> Becomes(t[k], filled[k], vars, annotations, workloadName, instanceNum, numInstances)
    ensures WellFormed(t) && cmString == Render(t) && Harmless(vars, annotations, workloadName) ==>
              r == Render(filled) && (warned <==> exists k :: 0 <= k < |filled| && filled[k].Hole?)
    ensures WellFormed(t) && cmString == Render(t) && Harmless(vars, annotations, workloadName) ==>
              var env := Environment(vars, annotations, workloadName, instanceNum, numInstances);
              r == Render(FillAll(t, env)) && (warned <==> LeavesHole(t, env))
    ensures warned <==> HasDoubleBrace(r)
  {
    if WellFormed(t) {
      ShowsItself(t);
    }
    r := ReplaceVariables(cmString, vars, t, map[]);
    assert vars + map[] == vars;
    var defaults := DefaultVariables(annotations);
    r := ReplaceVariables(r, defaults, t, vars);
    r := ReplaceBuiltIns(r, workloadName, instanceNum, numInstances, t, defaults + vars);
    warned := HasDoubleBrace(r);
    ghost var env := Environment(vars, annotations, workloadName, instanceNum, numInstances);
    filled := FillAll(t, env);
    FilledBecomes(t, vars, annotations, workloadName, instanceNum, numInstances);
    if Shows(r, t, env) {
      WarnsOfLeftHoles(r, t, env);
      FillAllKeepsWellFormed(t, env);
      WarnsIff(filled);
    }
  }

  // ----- why the values must be plain text -----

  /** A value that is itself a placeholder makes the result depend on the order. */
  lemma PlaceholderValuesDependOnOrder(x: string, y: string, value: string)
    requires IsName(x) && IsName(y) && x != y && value != Placeholder(y)
    ensures ReplaceAll(ReplaceAll(Placeholder(x), Placeholder(x), Placeholder(y)), Placeholder(y), value) == value
    ensures ReplaceAll(ReplaceAll(Placeholder(x), Placeholder(y), value), Placeholder(x), Placeholder(y)) == Placeholder(y)
  {
    ReplaceFillsHole("", x, Placeholder(y));
    ReplaceFillsHole("", y, value);
    ReplaceSkipsHole("", y, x, value);
    assert Placeholder(x) + "" == Placeholder(x) && Placeholder(y) + "" == Placeholder(y) && value + "" == value;
  }
}
