/** Access point names: dotted text in the configuration, length-prefixed labels on the wire and in memory. */
module Apn {
  import opened Basics

  const DOT := 46

  /** Bytes of a C string: none is zero. */
  predicate Text(s: seq<nat>) {
    forall i :: 0 <= i < |s| ==> 0 < s[i] < 256
  }

  // ------------------------------------------------------------------ the wire format

  /** The labels between the dots; a name without dots is one label, also when it is empty. */
  function Split(s: seq<nat>): (labels: seq<seq<nat>>)
    ensures labels != []
  {
    if s == [] then [[]] else
    var rest := Split(s[1..]);
    if s[0] == DOT then [[]] + rest else [[s[0]] + rest[0]] + rest[1..]
  }

  function Join(labels: seq<seq<nat>>): seq<nat> {
    if labels == [] then [] else
    if |labels| == 1 then labels[0] else labels[0] + [DOT] + Join(labels[1..])
  }

  function Encode(labels: seq<seq<nat>>): seq<nat> {
    if labels == [] then [] else [|labels[0]|] + labels[0] + Encode(labels[1..])
  }

  /** Reads labels off the wire: a length, that many bytes, and so on to the end. */
  function Decode(wire: seq<nat>): Option<seq<seq<nat>>> {
    if wire == [] then Some([]) else
    var n := wire[0];
    if n >= |wire| then None else
    var rest := Decode(wire[n + 1..]);
    if rest == None then None else Some([wire[1..n + 1]] + rest.value)
  }

  lemma {:induction false} DecodeEncode(labels: seq<seq<nat>>)
    ensures Decode(Encode(labels)) == Some(labels)
  {
    if labels != [] {
      var wire := Encode(labels);
      assert wire[1..|labels[0]| + 1] == labels[0];
      assert wire[|labels[0]| + 1..] == Encode(labels[1..]);
      DecodeEncode(labels[1..]);
      assert labels == [labels[0]] + labels[1..];
    }
  }

  lemma {:induction false} JoinSplit(s: seq<nat>)
    ensures Join(Split(s)) == s
  {
    if s != [] {
      var rest := Split(s[1..]);
      JoinSplit(s[1..]);
      assert s == [s[0]] + s[1..];
      if s[0] == DOT {
        assert ([[]] + rest)[1..] == rest;
      } else {
        assert Split(s)[1..] == rest[1..];
      }
    }
  }

  // ------------------------------------------------------------------ the loop's own result

  /** What the backward loop leaves: the length of the first label, then the bytes with each dot made a length. */
  function Counted(s: seq<nat>): (r: seq<nat>)
    ensures |r| == |s| + 1
  {
    if s == [] then [0] else
    var rest := Counted(s[1..]);
    if s[0] == DOT then [0] + rest else [rest[0] + 1, s[0]] + rest[1..]
  }

  lemma EncodeCons(first: seq<nat>, labels: seq<seq<nat>>)
    ensures Encode([first] + labels) == [|first|] + (first + Encode(labels))
  {
    assert ([first] + labels)[1..] == labels;
    assert [|first|] + first + Encode(labels) == [|first|] + (first + Encode(labels));
  }

  /** A character more in the first label. */
  lemma EncodeGrow(x: nat, first: seq<nat>, labels: seq<seq<nat>>)
    ensures var r := Encode([first] + labels);
            Encode([[x] + first] + labels) == [r[0] + 1, x] + r[1..]
  {
    EncodeCons(first, labels);
    EncodeCons([x] + first, labels);
    var tail := first + Encode(labels);
    assert ([|first|] + tail)[1..] == tail;
    assert [x] + first + Encode(labels) == [x] + tail;
  }

  lemma {:induction false} CountedIsEncoded(s: seq<nat>)
    ensures Counted(s) == Encode(Split(s))
  {
    if s == [] {
      EncodeCons([], []);
    } else {
      CountedIsEncoded(s[1..]);
      var rest := Split(s[1..]);
      if s[0] == DOT {
        EncodeCons([], rest);
      } else {
        assert rest == [rest[0]] + rest[1..];
        EncodeGrow(s[0], rest[0], rest[1..]);
      }
    }
  }

  /** Every dotted name comes back from what the loop leaves. */
  lemma RoundTrip(s: seq<nat>)
    ensures Decode(Counted(s)) == Some(Split(s)) && Join(Split(s)) == s
  {
    CountedIsEncoded(s);
    DecodeEncode(Split(s));
    JoinSplit(s);
  }

  lemma {:induction false} CountedSmall(s: seq<nat>)
    ensures Counted(s)[0] <= |s|
  {
    if s != [] {
      CountedSmall(s[1..]);
    }
  }

  /** char requested_apn[64] and apn_name[64]. */
  const APN_SIZE := 64

  /** requested_apn: the text is copied with its terminator behind a length byte, then turned into labels from its end. */
  method EncodeInPlace(buf: array<nat>, name: seq<nat>)
    requires buf.Length == APN_SIZE && Text(name) && |name| + 2 <= APN_SIZE
    modifies buf
    ensures buf[..|name| + 1] == Counted(name) && buf[0] < 128
    ensures buf[|name| + 1..] == [0] + old(buf[|name| + 2..])
  {
    forall k | 0 <= k < |name| {
      buf[k + 1] := name[k];
    }
    buf[|name| + 1] := 0;
    buf[0] := 0;
    EncodeLoop(buf, name);
    CountedSmall(name);
  }

  /** apn_name: the text is copied without a terminator into a zeroed field, so it may fill the field. */
  method EncodeProfileName(name: seq<nat>) returns (buf: array<nat>)
    requires Text(name) && |name| + 1 <= APN_SIZE
    ensures fresh(buf) && buf.Length == APN_SIZE
    ensures buf[..|name| + 1] == Counted(name) && buf[0] < 128
    ensures forall k :: |name| < k < APN_SIZE ==> buf[k] == 0
  {
    buf := new nat[APN_SIZE](_ => 0);
    forall k | 0 <= k < |name| {
      buf[k + 1] := name[k];
    }
    ghost var rest := buf[|name| + 1..];
    assert forall k :: 0 <= k < |rest| ==> rest[k] == 0;
    EncodeLoop(buf, name);
    CountedSmall(name);
    assert forall k :: |name| < k < APN_SIZE ==> buf[k] == rest[k - |name| - 1];
  }

  /** Text up to `ptr`, the result for the rest of the name behind it and in byte 0. */
  ghost predicate Halfway(b: seq<nat>, name: seq<nat>, ptr: nat) {
    && ptr <= |name| < |b|
    && (forall k :: 1 <= k <= ptr ==> b[k] == name[k - 1])
    && var rest := Counted(name[ptr..]);
       b[0] == rest[0] && forall k :: ptr < k <= |name| ==> b[k] == rest[k - ptr]
  }

  function LoopStep(b: seq<nat>, ptr: nat): seq<nat>
    requires 0 < ptr < |b|
  {
    if b[ptr] == DOT then b[ptr := b[0]][0 := 0] else b[0 := b[0] + 1]
  }

  lemma LoopStepKeeps(b: seq<nat>, name: seq<nat>, ptr: nat)
    requires Halfway(b, name, ptr) && ptr > 0
    ensures Halfway(LoopStep(b, ptr), name, ptr - 1)
  {
    var t := name[ptr - 1..];
    assert t[1..] == name[ptr..];
    var rest, all, c := Counted(name[ptr..]), Counted(t), LoopStep(b, ptr);
    assert all == if t[0] == DOT then [0] + rest else [rest[0] + 1, t[0]] + rest[1..];
    forall k | ptr - 1 < k <= |name| ensures c[k] == all[k - (ptr - 1)] {
      if k > ptr {
        assert c[k] == b[k] == rest[k - ptr];
      }
    }
  }

  method EncodeLoop(buf: array<nat>, name: seq<nat>)
    requires |name| + 1 <= buf.Length && buf[0] == 0 && buf[1..|name| + 1] == name
    modifies buf
    ensures buf[..|name| + 1] == Counted(name)
    ensures buf[|name| + 1..] == old(buf[|name| + 1..])
  {
    var ptr := |name|;
    while ptr != 0
      invariant 0 <= ptr <= |name|
      invariant Halfway(buf[..], name, ptr)
      invariant buf[|name| + 1..] == old(buf[|name| + 1..])
    {
      LoopStepKeeps(buf[..], name, ptr);
      ghost var next := LoopStep(buf[..], ptr);
      if buf[ptr] == DOT {
        buf[ptr] := buf[0];
        buf[0] := 0;
      } else {
        buf[0] := buf[0] + 1;
      }
      assert buf[..] == next;
      ptr := ptr - 1;
    }
    assert name[0..] == name;
  }

  // ------------------------------------------------------------------ as C strings

  /** strlen; the length of the sequence if no byte is zero. */
  function StrLen(s: seq<nat>): (n: nat)
    ensures n <= |s| && (forall i :: 0 <= i < n ==> s[i] != 0) && (n < |s| ==> s[n] == 0)
  {
    if s == [] || s[0] == 0 then 0 else 1 + StrLen(s[1..])
  }

  /** No label is empty: the name is not empty, no dot stands at an end and no two stand together. */
  predicate Proper(s: seq<nat>) {
    && s != [] && s[0] != DOT && s[|s| - 1] != DOT
    && forall i :: 0 <= i < |s| - 1 ==> s[i] != DOT || s[i + 1] != DOT
  }

  lemma {:induction false} FirstLength(s: seq<nat>)
    ensures Counted(s)[0] == 0 <==> s == [] || s[0] == DOT
  {
    if s != [] {
      FirstLength(s[1..]);
    }
  }

  lemma {:induction false} NoZeroExactly(s: seq<nat>)
    requires Text(s)
    ensures 0 !in Counted(s) <==> Proper(s)
    decreases |s|, 1
  {
    FirstLength(s);
    if |s| == 1 && s[0] != DOT {
      assert Counted(s[1..]) == [0];
    } else if |s| > 1 && s[0] != DOT {
      var rest := Counted(s[1..]);
      assert rest == [rest[0]] + rest[1..];
      if s[1] == DOT {
        NoZeroAfterDot(s);
      } else {
        NoZeroExactly(s[1..]);
        ProperTail(s);
      }
    }
  }

  lemma ProperTail(s: seq<nat>)
    requires |s| > 1 && s[0] != DOT && s[1] != DOT
    ensures Proper(s) <==> Proper(s[1..])
  {
    var t := s[1..];
    if Proper(t) {
      forall i | 0 <= i < |s| - 1 ensures s[i] != DOT || s[i + 1] != DOT {
        if i > 0 { assert t[i - 1] == s[i] && t[i] == s[i + 1]; }
      }
    }
  }

  /** A label of one character before a dot. */
  lemma NoZeroAfterDot(s: seq<nat>)
    requires Text(s) && |s| > 1 && s[0] != DOT && s[1] == DOT
    ensures 0 !in Counted(s) <==> Proper(s)
    decreases |s|, 0
  {
    var t := s[2..];
    assert s[1..][1..] == t;
    assert Counted(s) == [1, s[0]] + Counted(t);
    NoZeroExactly(t);
    assert Proper(s) <==> Proper(t) by {
      if Proper(t) {
        forall i | 0 <= i < |s| - 1 ensures s[i] != DOT || s[i + 1] != DOT {
          if i > 1 { assert t[i - 2] == s[i] && t[i - 1] == s[i + 1]; }
        }
      }
      if Proper(s) {
        assert t != [];
        assert s[1] != DOT || s[2] != DOT;
      }
    }
  }

  /** strlen of the buffer, stored as the name's length, is the wire length exactly for a name without empty labels. */
  lemma LengthExactly(name: seq<nat>, rest: seq<nat>)
    requires Text(name)
    ensures StrLen(Counted(name) + [0] + rest) == |name| + 1 <==> Proper(name)
  {
    var b := Counted(name) + [0] + rest;
    NoZeroExactly(name);
    if 0 in Counted(name) {
      var i :| 0 <= i < |name| + 1 && Counted(name)[i] == 0;
      assert b[i] == 0;
    } else {
      var n := StrLen(b);
      assert b[|name| + 1] == 0;
    }
  }

  /** What strcmp sees of a field. */
  function CString(field: seq<nat>): seq<nat> {
    field[..StrLen(field)]
  }

  /** The labels before the first empty one. */
  function Leading(labels: seq<seq<nat>>): seq<seq<nat>> {
    if labels == [] || labels[0] == [] then [] else [labels[0]] + Leading(labels[1..])
  }

  predicate TextLabels(labels: seq<seq<nat>>) {
    forall i :: 0 <= i < |labels| ==> Text(labels[i])
  }

  lemma {:induction false} SplitText(s: seq<nat>)
    requires Text(s)
    ensures TextLabels(Split(s))
  {
    if s != [] {
      SplitText(s[1..]);
    }
  }

  lemma {:induction false} StrLenAppend(a: seq<nat>, b: seq<nat>)
    requires 0 !in a
    ensures CString(a + b) == a + CString(b)
  {
    if a == [] {
      assert a + b == b;
    } else {
      var x, tail := a[0], a[1..] + b;
      assert x in a;
      StrLenAppend(a[1..], b);
      assert a + b == [x] + tail && (a + b)[1..] == tail;
      var n := StrLen(tail);
      assert StrLen(a + b) == n + 1 && ([x] + tail)[..n + 1] == [x] + tail[..n];
    }
  }

  /** Up to its first zero, an encoding is that of the labels before the first empty one. */
  lemma {:induction false} CStringLeading(labels: seq<seq<nat>>, rest: seq<nat>)
    requires TextLabels(labels)
    ensures CString(Encode(labels) + [0] + rest) == Encode(Leading(labels))
  {
    if labels == [] || labels[0] == [] {
      assert (Encode(labels) + [0] + rest)[0] == 0;
    } else {
      var first, tail := labels[0], labels[1..];
      CStringLeading(tail, rest);
      var head := [|first|] + first;
      assert Text(first);
      assert Encode(labels) + [0] + rest == head + (Encode(tail) + [0] + rest);
      StrLenAppend(head, Encode(tail) + [0] + rest);
      assert Leading(labels)[1..] == Leading(tail);
    }
  }

  /** Compared as C strings, two encoded names are equal exactly when they agree up to their first empty labels. */
  lemma SameFieldExactly(x: seq<nat>, y: seq<nat>, xRest: seq<nat>, yRest: seq<nat>)
    requires Text(x) && Text(y)
    ensures CString(Counted(x) + [0] + xRest) == CString(Counted(y) + [0] + yRest) <==> Leading(Split(x)) == Leading(Split(y))
  {
    CountedIsEncoded(x);
    CountedIsEncoded(y);
    SplitText(x);
    SplitText(y);
    CStringLeading(Split(x), xRest);
    CStringLeading(Split(y), yRest);
    DecodeEncode(Leading(Split(x)));
    DecodeEncode(Leading(Split(y)));
  }

  /** For names without empty labels that means equal names. */
  lemma SameNameExactly(x: seq<nat>, y: seq<nat>)
    requires Text(x) && Text(y) && Proper(x) && Proper(y)
    ensures Counted(x) == Counted(y) <==> x == y
    ensures Leading(Split(x)) == Leading(Split(y)) <==> x == y
  {
    RoundTrip(x);
    RoundTrip(y);
    AllLeading(x);
    AllLeading(y);
  }

  lemma AllLeading(x: seq<nat>)
    requires Text(x) && Proper(x)
    ensures Leading(Split(x)) == Split(x)
  {
    NoZeroExactly(x);
    CountedIsEncoded(x);
    SplitText(x);
    CStringLeading(Split(x), []);
    StrLenAppend(Encode(Split(x)), [0]);
    assert Encode(Split(x)) + [0] + [] == Encode(Split(x)) + [0];
    DecodeEncode(Split(x));
    DecodeEncode(Leading(Split(x)));
  }

  /** With empty labels they need not be: "a." and "a" read the same up to the first zero. */
  lemma EmptyLabelAmbiguous()
    ensures var a, b := [97, DOT], [97];
            a != b && CString(Counted(a) + [0]) == CString(Counted(b) + [0])
  {
    assert Counted([97, DOT][1..][1..]) == [0];
    assert Counted([97, DOT][1..]) == [0, 0];
    assert Counted([97, DOT]) == [1, 97, 0];
    assert Counted([97][1..]) == [0];
    assert Counted([97]) == [1, 97];
    var ea, eb := [1, 97, 0, 0], [1, 97, 0];
    assert Counted([97, DOT]) + [0] == ea && Counted([97]) + [0] == eb;
    StrLenIs(ea, 2);
    StrLenIs(eb, 2);
    assert ea[..2] == eb[..2];
  }

  lemma StrLenIs(s: seq<nat>, n: nat)
    requires n < |s| && s[n] == 0 && forall i :: 0 <= i < n ==> s[i] != 0
    ensures StrLen(s) == n
  {}
}

/** Subscriber rules: parsed in file order, sorted by priority, searched for the first match (cpplib/spgw_config.cpp). */
module Selection {
  import opened Basics
  import opened Apn

  datatype Imsi = Imsi(from: nat, to: nat)
  datatype Plmn = Plmn(bytes: seq<nat>, tac: nat)

  /** sub_selection_keys_t; a key that is not valid is None. The access point name is the whole 64-byte field. */
  datatype Keys = Keys(imsi: Option<Imsi>, plmn: Option<Plmn>, apn: Option<seq<nat>>)

  /** sub_selection_rule_t; a rule without keys matches everyone. `profile` stands for what it selects. */
  datatype Rule = Rule(priority: nat, keys: Option<Keys>, profile: nat)

  /** The tests of the search loop. The PLMN bytes of the rule are compared with themselves, so only the TAC decides. */
  predicate Matches(rule: Rule, key: Keys) {
    rule.keys == None ||
    var k := rule.keys.value;
    && (k.imsi.Some? ==> key.imsi.Some? && k.imsi.value.from <= key.imsi.value.from <= k.imsi.value.to)
    && (k.plmn.Some? ==> key.plmn.Some? && k.plmn.value.tac == key.plmn.value.tac)
    && (k.apn.Some? ==> key.apn.Some? && CString(key.apn.value) == CString(k.apn.value))
  }

  predicate ByPriority(rules: seq<Rule>) {
    forall i, j :: 0 <= i < j < |rules| ==> rules[i].priority <= rules[j].priority
  }

  /** Puts a rule behind all those of no greater priority number: list::sort keeps ties in order. */
  function Insert(rules: seq<Rule>, rule: Rule): (r: seq<Rule>)
    ensures multiset(r) == multiset(rules) + multiset{rule}
  {
    if rules == [] || rule.priority < rules[0].priority then
      assert [rule] + rules == [rule] + rules[..];
      [rule] + rules
    else
      assert rules == [rules[0]] + rules[1..];
      [rules[0]] + Insert(rules[1..], rule)
  }

  function Sort(file: seq<Rule>): (r: seq<Rule>)
    ensures multiset(r) == multiset(file)
  {
    if file == [] then [] else
    assert file == file[..|file| - 1] + [file[|file| - 1]];
    Insert(Sort(file[..|file| - 1]), file[|file| - 1])
  }

  lemma {:induction false} InsertSorted(rules: seq<Rule>, rule: Rule)
    requires ByPriority(rules)
    ensures ByPriority(Insert(rules, rule))
  {
    if rules != [] && rules[0].priority <= rule.priority {
      InsertSorted(rules[1..], rule);
      var t := Insert(rules[1..], rule);
      forall i | 0 <= i < |t| ensures rules[0].priority <= t[i].priority {
        assert t[i] in multiset(t);
        assert t[i] in multiset(rules[1..]) || t[i] == rule;
      }
    }
  }

  lemma {:induction false} SortSorted(file: seq<Rule>)
    ensures ByPriority(Sort(file))
  {
    if file != [] {
      SortSorted(file[..|file| - 1]);
      InsertSorted(Sort(file[..|file| - 1]), file[|file| - 1]);
    }
  }

  function FirstMatch(rules: seq<Rule>, key: Keys): Option<Rule> {
    if rules == [] then None
    else if Matches(rules[0], key) then Some(rules[0])
    else FirstMatch(rules[1..], key)
  }

  function Select(file: seq<Rule>, key: Keys): Option<Rule> {
    FirstMatch(Sort(file), key)
  }

  /** The rule a later one has to beat: it wins only with a smaller priority number. */
  function Better(found: Option<Rule>, rule: Rule, key: Keys): Option<Rule> {
    if Matches(rule, key) && (found == None || rule.priority < found.value.priority) then Some(rule) else found
  }

  lemma {:induction false} InsertMatch(rules: seq<Rule>, rule: Rule, key: Keys)
    requires ByPriority(rules)
    ensures FirstMatch(Insert(rules, rule), key) == Better(FirstMatch(rules, key), rule, key)
  {
    if rules == [] || rule.priority < rules[0].priority {
      assert ([rule] + rules)[1..] == rules;
      FirstPriority(rules, key);
    } else {
      var t := Insert(rules[1..], rule);
      assert ([rules[0]] + t)[1..] == t;
      InsertMatch(rules[1..], rule, key);
    }
  }

  lemma {:induction false} FirstPriority(rules: seq<Rule>, key: Keys)
    requires ByPriority(rules)
    ensures FirstMatch(rules, key).Some? ==> rules != [] && rules[0].priority <= FirstMatch(rules, key).value.priority
  {
    if rules != [] && !Matches(rules[0], key) {
      FirstPriority(rules[1..], key);
    }
  }

  /** The matching rule of smallest priority number, the earliest in the file among those. */
  predicate Best(file: seq<Rule>, key: Keys, i: nat) {
    && i < |file| && Matches(file[i], key)
    && forall j :: 0 <= j < |file| && Matches(file[j], key) ==>
         file[i].priority < file[j].priority || (file[i].priority == file[j].priority && i <= j)
  }

  predicate NoneMatches(file: seq<Rule>, key: Keys) {
    forall j :: 0 <= j < |file| ==> !Matches(file[j], key)
  }

  /** Nothing matches, or the rule found is the best one, the i-th. */
  predicate Outcome(file: seq<Rule>, key: Keys, found: Option<Rule>, i: nat) {
    if found == None then NoneMatches(file, key) else Best(file, key, i) && file[i] == found.value
  }

  lemma OutcomeStep(before: seq<Rule>, rule: Rule, key: Keys, found: Option<Rule>, i: nat) returns (k: nat)
    requires Outcome(before, key, found, i)
    ensures Outcome(before + [rule], key, Better(found, rule, key), k)
  {
    var file := before + [rule];
    assert forall j :: 0 <= j < |before| ==> file[j] == before[j];
    k := if Better(found, rule, key) == found then i else |before|;
  }

  lemma SelectStep(before: seq<Rule>, rule: Rule, key: Keys)
    ensures Select(before + [rule], key) == Better(Select(before, key), rule, key)
  {
    assert (before + [rule])[..|before|] == before;
    SortSorted(before);
    InsertMatch(Sort(before), rule, key);
  }

  /** Selection finds the best rule, or nothing when nothing matches. */
  lemma {:induction false} SelectsBest(file: seq<Rule>, key: Keys) returns (i: nat)
    ensures Outcome(file, key, Select(file, key), i)
  {
    if file == [] {
      i := 0;
    } else {
      var before, rule := file[..|file| - 1], file[|file| - 1];
      assert file == before + [rule];
      SelectStep(before, rule, key);
      var j := SelectsBest(before, key);
      i := OutcomeStep(before, rule, key, Select(before, key), j);
    }
  }

  /** It finds nothing exactly when nothing matches. */
  lemma SelectsNoneExactly(file: seq<Rule>, key: Keys)
    ensures Select(file, key) == None <==> NoneMatches(file, key)
  {
    var i := SelectsBest(file, key);
  }

  /** Priorities that tell rules apart. */
  predicate DistinctPriorities(file: seq<Rule>) {
    forall i, j :: 0 <= i < |file| && 0 <= j < |file| && file[i].priority == file[j].priority ==> file[i] == file[j]
  }

  /** Then the order of the file does not matter. */
  lemma OrderIrrelevant(file: seq<Rule>, other: seq<Rule>, key: Keys)
    requires DistinctPriorities(file) && multiset(file) == multiset(other)
    ensures Select(file, key) == Select(other, key)
  {
    var i := SelectsBest(file, key);
    var j := SelectsBest(other, key);
    if Select(file, key).Some? {
      var k := Occurs(file, other, i);
      assert Matches(other[k], key);
      var m := Occurs(other, file, j);
    } else if Select(other, key).Some? {
      var m := Occurs(other, file, j);
    }
  }

  lemma Occurs(a: seq<Rule>, b: seq<Rule>, i: nat) returns (j: nat)
    requires i < |a| && multiset(a) == multiset(b)
    ensures j < |b| && b[j] == a[i]
  {
    assert a[i] in multiset(b);
    j :| 0 <= j < |b| && b[j] == a[i];
  }

  /** A rule on a range of subscribers matches exactly those in it; a request without a subscriber matches no such rule. */
  lemma ImsiDecides(range: Imsi, key: Keys, priority: nat, profile: nat)
    ensures Matches(Rule(priority, Some(Keys(Some(range), None, None)), profile), key)
            <==> exists imsi :: key.imsi == Some(imsi) && range.from <= imsi.from <= range.to
  {
    if key.imsi.Some? {
      assert key.imsi == Some(key.imsi.value);
    }
  }

  /** A rule on a network and tracking area goes by the area code alone. */
  lemma TacDecides(plmn: Plmn, key: Keys, priority: nat, profile: nat)
    ensures Matches(Rule(priority, Some(Keys(None, Some(plmn), None)), profile), key)
            <==> exists bytes :: key.plmn == Some(Plmn(bytes, plmn.tac))
  {
    if key.plmn.Some? {
      assert key.plmn == Some(Plmn(key.plmn.value.bytes, key.plmn.value.tac));
    }
  }

  /** A rule on several keys matches exactly when each of its keys does, and one on none matches everyone. */
  lemma KeysConjoin(k: Keys, key: Keys, priority: nat, profile: nat)
    ensures Matches(Rule(priority, Some(k), profile), key) <==>
              && Matches(Rule(priority, Some(Keys(k.imsi, None, None)), profile), key)
              && Matches(Rule(priority, Some(Keys(None, k.plmn, None)), profile), key)
              && Matches(Rule(priority, Some(Keys(None, None, k.apn)), profile), key)
    ensures Matches(Rule(priority, None, profile), key) && Matches(Rule(priority, Some(Keys(None, None, None)), profile), key)
  {}

  /** Keys that ask for nothing but an access point name, as the encoder leaves it in a field. */
  function ApnKeys(name: seq<nat>, rest: seq<nat>): Keys {
    Keys(None, None, Some(Counted(name) + [0] + rest))
  }

  /** A rule on a name matches a request for a name exactly when the two agree up to their first empty labels. */
  lemma ApnDecides(rule: seq<nat>, asked: seq<nat>, ruleRest: seq<nat>, askedRest: seq<nat>, priority: nat, profile: nat)
    requires Text(rule) && Text(asked)
    ensures !Matches(Rule(priority, Some(ApnKeys(rule, ruleRest)), profile), Keys(None, None, None))
    ensures Matches(Rule(priority, Some(ApnKeys(rule, ruleRest)), profile), ApnKeys(asked, askedRest))
            <==> Leading(Split(rule)) == Leading(Split(asked))
    ensures Proper(rule) && Proper(asked) ==> (Leading(Split(rule)) == Leading(Split(asked)) <==> rule == asked)
  {
    SameFieldExactly(asked, rule, askedRest, ruleRest);
    if Proper(rule) && Proper(asked) {
      SameNameExactly(rule, asked);
    }
  }

  class ConfigStore {
    var rules: seq<Rule>

    constructor ()
      ensures rules == []
    {
      rules := [];
    }

    /** The rules of a file, pushed back one by one and then sorted. */
    method LoadRules(file: seq<Rule>)
      requires rules == []
      modifies this
      ensures rules == Sort(file)
    {
      for i := 0 to |file|
        invariant rules == file[..i]
      {
        rules := rules + [file[i]];
      }
      assert file[..|file|] == file;
      rules := Sort(rules);
    }

    /** match_sub_selection_cpp on a loaded configuration. */
    method MatchSubSelection(key: Keys) returns (rule: Option<Rule>)
      ensures rule == FirstMatch(rules, key)
    {
      for i := 0 to |rules|
        invariant FirstMatch(rules, key) == FirstMatch(rules[i..], key)
      {
        if Matches(rules[i], key) {
          return Some(rules[i]);
        }
        assert rules[i..][1..] == rules[i + 1..];
      }
      return None;
    }
  }
}
