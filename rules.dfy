/** The custom-responses document (`respuestas_personalizadas.json`) and the
    first-match keyword lookup that all three front ends run over it. */
module Rules {
  import opened Documents
  import opened Text

  /** One entry of the document, in `Object.entries` order: the category name,
      its keyword list and its reply. `palabrasClave` is `None` when the
      entry has no keyword array, so that calling `.some` on it throws. */
  datatype Rule = Rule(categoria: string, palabrasClave: Option<seq<string>>, respuesta: string)

  /** `palabras_clave.some(p => m.includes(p))`: some keyword, taken as stored
      (not lower-cased), occurs in `m`. */
  function AnyKeyword(ks: seq<string>, m: string): (hit: bool)
    ensures hit <==> exists i :: 0 <= i < |ks| && Contains(m, ks[i])
    decreases |ks|
  {
    |ks| > 0 && (Contains(m, ks[0]) || AnyKeyword(ks[1..], m))
  }

  predicate WellFormed(r: Rule) {
    r.palabrasClave.Some?
  }

  predicate Matches(r: Rule, m: string) {
    WellFormed(r) && AnyKeyword(r.palabrasClave.value, m)
  }

  /** The loop over the entries of the document, given the lower-cased
      message: the reply of the first matching rule. Reaching a malformed
      rule first throws, which the caller catches, so the lookup yields null. */
  function FirstReply(rules: seq<Rule>, m: string): (r: Option<string>)
    ensures r.Some? ==> exists i :: 0 <= i < |rules| && Matches(rules[i], m) && r.value == rules[i].respuesta
    decreases |rules|
  {
    if rules == [] then None
    else if !WellFormed(rules[0]) then None
    else if Matches(rules[0], m) then Some(rules[0].respuesta)
    else
      var rest := FirstReply(rules[1..], m);
      assert forall i :: 0 <= i < |rules[1..]| ==> rules[1..][i] == rules[i + 1];
      rest
  }

  /** Rule `i` is the one the loop stops at: it matches, and every rule
      before it is well formed and does not match. */
  ghost predicate Selected(rules: seq<Rule>, m: string, i: int) {
    0 <= i < |rules| && Matches(rules[i], m)
    && forall j :: 0 <= j < i ==> WellFormed(rules[j]) && !Matches(rules[j], m)
  }

  lemma SelectedShift(rules: seq<Rule>, m: string, i: int)
    requires |rules| > 0 && i >= 1
    ensures Selected(rules, m, i) <==>
      WellFormed(rules[0]) && !Matches(rules[0], m) && Selected(rules[1..], m, i - 1)
  {
    if WellFormed(rules[0]) && !Matches(rules[0], m) && Selected(rules[1..], m, i - 1) {
      forall j | 0 <= j < i
        ensures WellFormed(rules[j]) && !Matches(rules[j], m)
      {
        if j > 0 {
          assert rules[j] == rules[1..][j - 1];
        }
      }
    }
    if Selected(rules, m, i) {
      forall j | 0 <= j < i - 1
        ensures WellFormed(rules[1..][j]) && !Matches(rules[1..][j], m)
      {
        assert rules[1..][j] == rules[j + 1];
      }
    }
  }

  /** First match in stored order: the lookup succeeds exactly when some rule
      is selected, and then it returns that rule's reply; at most one rule is
      selected. */
  lemma {:induction false} FirstReplySpec(rules: seq<Rule>, m: string)
    ensures FirstReply(rules, m).Some? <==> exists i :: Selected(rules, m, i)
    ensures forall i :: Selected(rules, m, i) ==> FirstReply(rules, m) == Some(rules[i].respuesta)
    ensures forall i, j :: Selected(rules, m, i) && Selected(rules, m, j) ==> i == j
    decreases |rules|
  {
    if rules == [] {
    } else if !WellFormed(rules[0]) {
      forall i | Selected(rules, m, i)
        ensures i == 0
      {
      }
    } else if Matches(rules[0], m) {
      assert Selected(rules, m, 0);
    } else {
      FirstReplySpec(rules[1..], m);
      forall i | 1 <= i
        ensures Selected(rules, m, i) <==> Selected(rules[1..], m, i - 1)
      {
        SelectedShift(rules, m, i);
      }
      if FirstReply(rules[1..], m).Some? {
        var k :| Selected(rules[1..], m, k);
        assert Selected(rules, m, k + 1);
      }
    }
  }

  /** Rules after the selected one are never consulted: appending rules to
      a document that already answers changes nothing. */
  lemma {:induction false} LaterRulesIgnored(rules: seq<Rule>, more: seq<Rule>, m: string)
    requires FirstReply(rules, m).Some?
    ensures FirstReply(rules + more, m) == FirstReply(rules, m)
    decreases |rules|
  {
    assert (rules + more)[0] == rules[0];
    if WellFormed(rules[0]) && !Matches(rules[0], m) {
      assert (rules + more)[1..] == rules[1..] + more;
      LaterRulesIgnored(rules[1..], more, m);
    }
  }

  /** `obtenerRespuestaPersonalizada` / `getCustomResponse`: null when the
      document is missing or unreadable; otherwise the reply of the rule
      selected for the lower-cased message, or null when none is. */
  function CustomReply(doc: Doc<seq<Rule>>, msg: string): (r: Option<string>)
    ensures r.Some? <==> doc.Loaded? && exists i :: Selected(doc.value, Lower(msg), i)
    ensures forall i :: doc.Loaded? && Selected(doc.value, Lower(msg), i) ==>
      r == Some(doc.value[i].respuesta)
  {
    match doc
    case Loaded(rules) => FirstReplySpec(rules, Lower(msg)); FirstReply(rules, Lower(msg))
    case _ => None
  }

  predicate HasUpper(w: string) {
    exists k :: 0 <= k < |w| && IsUpper(w[k])
  }

  /** Keywords are compared as stored: a rule whose every keyword holds an
      upper-case letter never matches any message (and neither does a rule
      without a keyword array). */
  lemma UpperCaseRuleNeverMatches(r: Rule, msg: string)
    requires forall i :: r.palabrasClave.Some? && 0 <= i < |r.palabrasClave.value| ==>
      HasUpper(r.palabrasClave.value[i])
    ensures !Matches(r, Lower(msg))
  {
    if WellFormed(r) {
      var ks := r.palabrasClave.value;
      forall i | 0 <= i < |ks|
        ensures !Contains(Lower(msg), ks[i])
      {
        var k :| 0 <= k < |ks[i]| && IsUpper(ks[i][k]);
        UpperNeverInLower(msg, ks[i], k);
      }
    }
  }
}
