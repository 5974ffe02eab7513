/** Ticket text of the JIRA client (pura/modules/jira_client.py): the
    classification-to-priority table, the placeholder substitution into the
    summary and description templates, and the body of the "user notified"
    comment. The JIRA API calls around them are not part of this model. */
module JiraClient {

  import opened Text

  // ---------------------------------------------------------------------
  // Priorities (lines 32-38, 131-144)
  // ---------------------------------------------------------------------

  /** `PRIORITIES`: JIRA priority id to name. */
  const Priorities: map<string, string> :=
    map["1" := "Highest", "2" := "High", "3" := "Medium", "4" := "Low", "5" := "Lowest"]

  /** The priority id `__determine_priority` sets for a classification:
      case-insensitive, with '2' for anything not in the table. */
  function Priority(classification: string): (p: string)
    ensures p in Priorities && p != "4"
  {
    var c := Lower(classification);
    if c == "malware" then "1"
    else if c == "phishing" then "2"
    else if c == "fraud" then "2"
    else if c == "spam" then "3"
    else if c == "legitimate" then "5"
    else "2"
  }

  /** The five known classifications, in lower case. */
  predicate Known(c: string) {
    c in {"malware", "phishing", "fraud", "spam", "legitimate"}
  }

  lemma LowerIdempotent(s: string)
    ensures Lower(Lower(s)) == Lower(s)
  {
  }

  /** Only the lower-cased classification matters. */
  lemma PriorityCaseInsensitive(a: string, b: string)
    requires Lower(a) == Lower(b)
    ensures Priority(a) == Priority(b)
  {
  }

  /** The table: malware is Highest, phishing and fraud High, spam Medium,
      legitimate Lowest, and every other classification High. Low is never
      chosen. */
  lemma PriorityTable(classification: string)
    ensures var c := Lower(classification);
            && (c == "malware" ==> Priorities[Priority(classification)] == "Highest")
            && (c == "phishing" || c == "fraud" ==> Priorities[Priority(classification)] == "High")
            && (c == "spam" ==> Priorities[Priority(classification)] == "Medium")
            && (c == "legitimate" ==> Priorities[Priority(classification)] == "Lowest")
            && (!Known(c) ==> Priority(classification) == "2")
  {
  }

  /** Upper-case spellings are recognised. */
  lemma PriorityExample(classification: string)
    requires classification == "MalWare"
    ensures Priority(classification) == "1"
  {
    assert Lower(classification) == "malware";
  }

  // ---------------------------------------------------------------------
  // Templates (lines 27-30, 149-166)
  // ---------------------------------------------------------------------

  /** The placeholder `%name%`. */
  function Key(name: string): string {
    "%" + name + "%"
  }


  /** The `keys` dict of `__parse_template`, in its insertion order. */
  function Substitutions(classification: string, confidenceLevel: string, recipient: string,
                         emailSender: string, emailSubject: string, timedate: string): (subs: seq<(string, string)>)
    ensures |subs| == 6 && NonEmptyKeys(subs)
  {
    var subs := [ (Key("classification"), classification),
                  (Key("recipient"), recipient),
                  (Key("timedate"), timedate),
                  (Key("email_sender"), emailSender),
                  (Key("email_subject"), emailSubject),
                  (Key("confidence_level"), confidenceLevel) ];
    assert forall i :: 0 <= i < |subs| ==> |subs[i].0| >= 2;
    subs
  }

  predicate NonEmptyKeys(subs: seq<(string, string)>) {
    forall i :: 0 <= i < |subs| ==> subs[i].0 != []
  }

  /** The result of the substitution loop after the given pairs, one
      `str.replace` per pair, in order. */
  function ReplaceAll(s: string, subs: seq<(string, string)>): string
    requires NonEmptyKeys(subs)
  {
    if subs == [] then s
    else Replace(ReplaceAll(s, subs[..|subs| - 1]), subs[|subs| - 1].0, subs[|subs| - 1].1)
  }

  /** `__parse_template`: the loop over the keys, reassigning `summary` and
      `desc`. */
  method ParseTemplate(classification: string, confidenceLevel: string, recipient: string,
                       emailSender: string, emailSubject: string, timedate: string)
    returns (summary: string, desc: string)
    ensures var subs := Substitutions(classification, confidenceLevel, recipient, emailSender, emailSubject, timedate);
            summary == ReplaceAll(SummaryTemplate, subs) && desc == ReplaceAll(DescriptionTemplate, subs)
  {
    var keys := Substitutions(classification, confidenceLevel, recipient, emailSender, emailSubject, timedate);
    summary := SummaryTemplate;
    desc := DescriptionTemplate;
    var i := 0;
    while i < |keys|
      invariant 0 <= i <= |keys|
      invariant NonEmptyKeys(keys[..i])
      invariant summary == ReplaceAll(SummaryTemplate, keys[..i])
      invariant desc == ReplaceAll(DescriptionTemplate, keys[..i])
    {
      var (k, v) := keys[i];
      ReplaceAllStep(SummaryTemplate, keys, i);
      ReplaceAllStep(DescriptionTemplate, keys, i);
      summary := Replace(summary, k, v);
      desc := Replace(desc, k, v);
      i := i + 1;
    }
    assert keys[..i] == keys;
  }

  /** One more pair is one more `str.replace`. */
  lemma ReplaceAllStep(s: string, subs: seq<(string, string)>, i: nat)
    requires NonEmptyKeys(subs) && i < |subs|
    ensures NonEmptyKeys(subs[..i]) && NonEmptyKeys(subs[..i + 1])
    ensures ReplaceAll(s, subs[..i + 1]) == Replace(ReplaceAll(s, subs[..i]), subs[i].0, subs[i].1)
  {
    assert subs[..i + 1][..i] == subs[..i];
  }

  // ---------------------------------------------------------------------
  // Templates as text around placeholders
  // ---------------------------------------------------------------------

  /** A `%name%` placeholder whose name starts with a lower-case letter. */
  predicate Placeholder(k: string) {
    |k| >= 3 && k[0] == '%' && k[|k| - 1] == '%' && '%' !in k[1..|k| - 1] && 'a' <= k[1] <= 'z'
  }

  /** Text that cannot continue a placeholder name. */
  predicate NameStartFree(t: string) {
    t == [] || !('a' <= t[0] <= 'z')
  }

  /** A placeholder followed by literal text. */
  datatype Slot = Slot(key: string, after: string)

  /** Literal text holds no `%`; only the last slot may end the text, and
      no text right after a placeholder starts with a lower-case letter. */
  predicate WellFormed(lead: string, slots: seq<Slot>) {
    && '%' !in lead
    && forall i :: 0 <= i < |slots| ==>
         && Placeholder(slots[i].key) && '%' !in slots[i].after && NameStartFree(slots[i].after)
         && (slots[i].after == [] ==> i == |slots| - 1)
  }

  predicate PercentFree(m: map<string, string>) {
    forall k :: k in m ==> '%' !in m[k]
  }

  /** A placeholder's text once the keys of `m` are substituted. */
  function Value(key: string, m: map<string, string>): string {
    if key in m then m[key] else key
  }

  function RenderSlots(slots: seq<Slot>, m: map<string, string>): string {
    if slots == [] then []
    else Value(slots[0].key, m) + slots[0].after + RenderSlots(slots[1..], m)
  }

  /** The template with the keys of `m` substituted. */
  function Render(lead: string, slots: seq<Slot>, m: map<string, string>): string {
    lead + RenderSlots(slots, m)
  }

  /** Rendering with `%`-free values into `%`-free text leaves no `%`. */
  lemma {:induction false} RenderSlotsPercentFree(slots: seq<Slot>, m: map<string, string>)
    requires forall i :: 0 <= i < |slots| ==> '%' !in Value(slots[i].key, m) && '%' !in slots[i].after
    ensures '%' !in RenderSlots(slots, m)
  {
    if slots != [] {
      RenderSlotsPercentFree(slots[1..], m);
    }
  }

  /** A placeholder never starts with a different placeholder: the closing
      `%` of the shorter one would have to fall inside the name of the
      longer one. */
  lemma PlaceholderNotPrefix(p: string, t: string, k: string)
    requires Placeholder(p) && Placeholder(k) && p != k
    ensures !(k <= p + t)
  {
    var s := p + t;
    var i: nat;
    if |k| < |p| {
      i := |k| - 1;
      assert p[i] in p[1..|p| - 1];
    } else if |k| > |p| {
      i := |p| - 1;
      assert k[i] in k[1..|k| - 1];
    } else {
      i :| i < |p| && k[i] != p[i];
    }
    assert i < |k| && i < |s| && k[i] != s[i];
  }

  /** Replacing one placeholder leaves a different placeholder in front of
      it untouched. */
  lemma OtherPlaceholder(p: string, t: string, k: string, v: string)
    requires Placeholder(p) && Placeholder(k) && p != k && NameStartFree(t)
    ensures Replace(p + t, k, v) == p + Replace(t, k, v)
  {
    var name := p[1..|p| - 1];
    OtherPlaceholderHead(p, t, k, v);
    OtherPlaceholderTail(name, t, k, v);
    PlaceholderParts(p);
    assert "%" + (name + "%" + Replace(t, k, v)) == p + Replace(t, k, v);
  }

  /** The opening `%` of the other placeholder is kept. */
  lemma OtherPlaceholderHead(p: string, t: string, k: string, v: string)
    requires Placeholder(p) && Placeholder(k) && p != k
    ensures Replace(p + t, k, v) == "%" + Replace(p[1..|p| - 1] + ("%" + t), k, v)
  {
    PlaceholderNotPrefix(p, t, k);
    ReplaceMiss(p + t, k, v);
    assert (p + t)[0] == '%' && (p + t)[1..] == p[1..|p| - 1] + ("%" + t);
  }

  /** Its name and closing `%` are kept. */
  lemma OtherPlaceholderTail(name: string, t: string, k: string, v: string)
    requires '%' !in name && Placeholder(k) && NameStartFree(t)
    ensures Replace(name + ("%" + t), k, v) == name + "%" + Replace(t, k, v)
  {
    ReplaceSkips(name, "%" + t, k, v);
    ClosingPercent(t, k, v);
    assert name + ("%" + Replace(t, k, v)) == name + "%" + Replace(t, k, v);
  }

  /** A placeholder is `%`, its name, `%`. */
  lemma PlaceholderParts(p: string)
    requires Placeholder(p)
    ensures p == "%" + p[1..|p| - 1] + "%"
  {
  }

  /** Where no occurrence starts, the first character is kept. */
  lemma ReplaceMiss(s: string, k: string, v: string)
    requires k != [] && s != [] && !(k <= s)
    ensures Replace(s, k, v) == [s[0]] + Replace(s[1..], k, v)
  {
  }

  /** The `%` that closes a placeholder cannot open an occurrence of
      another one, since a name never starts the text that follows. */
  lemma ClosingPercent(t: string, k: string, v: string)
    requires Placeholder(k) && NameStartFree(t)
    ensures Replace("%" + t, k, v) == "%" + Replace(t, k, v)
  {
    var u := "%" + t;
    assert !(k <= u);
    assert u[1..] == t;
  }

  /** The placeholder being replaced gives way to its value. */
  lemma ReplaceAtKey(k: string, after: string, rest: string, v: string)
    requires Placeholder(k) && '%' !in after
    ensures Replace(k + after + rest, k, v) == v + after + Replace(rest, k, v)
  {
    assert k + after + rest == k + (after + rest);
    ReplaceHit(after + rest, k, v);
    ReplaceSkips(after, rest, k, v);
  }

  /** A value substituted earlier, and the text after it, are left alone. */
  lemma ReplaceAtValue(w: string, after: string, rest: string, k: string, v: string)
    requires Placeholder(k) && '%' !in w && '%' !in after
    ensures Replace(w + after + rest, k, v) == w + after + Replace(rest, k, v)
  {
    assert w + after + rest == (w + after) + rest;
    ReplaceSkips(w + after, rest, k, v);
  }

  /** A different placeholder still waiting, and the text after it, are
      left alone. */
  lemma ReplaceAtOther(p: string, after: string, rest: string, k: string, v: string)
    requires Placeholder(p) && Placeholder(k) && p != k && '%' !in after && NameStartFree(after + rest)
    ensures Replace(p + after + rest, k, v) == p + after + Replace(rest, k, v)
  {
    assert p + after + rest == p + (after + rest);
    OtherPlaceholder(p, after + rest, k, v);
    ReplaceSkips(after, rest, k, v);
  }

  /** One slot under one `str.replace`. */
  lemma ReplaceSlot(s: Slot, rest: string, m: map<string, string>, k: string, v: string)
    requires Placeholder(s.key) && '%' !in s.after && NameStartFree(s.after + rest)
    requires PercentFree(m) && Placeholder(k) && k !in m
    ensures Replace(Value(s.key, m) + s.after + rest, k, v)
         == Value(s.key, m[k := v]) + s.after + Replace(rest, k, v)
  {
    if s.key == k {
      assert Value(s.key, m) == k && Value(s.key, m[k := v]) == v;
      ReplaceAtKey(k, s.after, rest, v);
    } else if s.key in m {
      assert Value(s.key, m) == m[s.key] == Value(s.key, m[k := v]);
      ReplaceAtValue(m[s.key], s.after, rest, k, v);
    } else {
      assert Value(s.key, m) == s.key == Value(s.key, m[k := v]);
      ReplaceAtOther(s.key, s.after, rest, k, v);
    }
  }

  /** One `str.replace` of a placeholder not yet substituted binds it. */
  lemma {:induction false} ReplaceSlots(slots: seq<Slot>, m: map<string, string>, k: string, v: string)
    requires WellFormed([], slots) && PercentFree(m) && Placeholder(k) && k !in m
    ensures Replace(RenderSlots(slots, m), k, v) == RenderSlots(slots, m[k := v])
  {
    if slots != [] {
      var s := slots[0];
      var rest := RenderSlots(slots[1..], m);
      assert WellFormed([], slots[1..]) by {
        forall i | 0 <= i < |slots[1..]|
          ensures slots[1..][i] == slots[i + 1]
        {
        }
      }
      ReplaceSlots(slots[1..], m, k, v);
      assert s.after == [] ==> slots[1..] == [];
      ReplaceSlot(s, rest, m, k, v);
    }
  }

  /** The map of the pairs; later pairs win. */
  function MapOf(subs: seq<(string, string)>): map<string, string> {
    if subs == [] then map[]
    else MapOf(subs[..|subs| - 1])[subs[|subs| - 1].0 := subs[|subs| - 1].1]
  }

  /** Pairs whose keys are distinct placeholders and whose values hold no
      `%`. */
  predicate CleanPairs(subs: seq<(string, string)>) {
    && (forall i :: 0 <= i < |subs| ==> Placeholder(subs[i].0) && '%' !in subs[i].1)
    && (forall i, j :: 0 <= i < j < |subs| ==> subs[i].0 != subs[j].0)
  }

  lemma {:induction false} MapOfKeys(subs: seq<(string, string)>)
    requires CleanPairs(subs)
    ensures PercentFree(MapOf(subs))
    ensures forall k :: k in MapOf(subs) ==> exists i :: 0 <= i < |subs| && subs[i].0 == k
  {
    if subs != [] {
      var init := subs[..|subs| - 1];
      assert CleanPairs(init);
      MapOfKeys(init);
    }
  }

  /** Substituting clean pairs one after another into a well-formed
      template renders it with all of them bound. */
  lemma {:induction false} ReplaceAllRender(lead: string, slots: seq<Slot>, subs: seq<(string, string)>)
    requires WellFormed(lead, slots) && CleanPairs(subs)
    ensures NonEmptyKeys(subs)
    ensures ReplaceAll(Render(lead, slots, map[]), subs) == Render(lead, slots, MapOf(subs))
  {
    if subs != [] {
      var init := subs[..|subs| - 1];
      var (k, v) := subs[|subs| - 1];
      assert CleanPairs(init);
      ReplaceAllRender(lead, slots, init);
      MapOfKeys(init);
      assert k !in MapOf(init);
      assert WellFormed([], slots);
      ReplaceSlots(slots, MapOf(init), k, v);
      ReplaceSkips(lead, RenderSlots(slots, MapOf(init)), k, v);
    }
  }

  /** The summary template of line 28, `[%classification%] for user
      %recipient%`, as its text around its placeholders. */
  const SummaryTemplate: string := Render(SummaryLead, SummarySlots, map[])

  const SummaryLead := "["
  const SummarySlots := [Slot(Key("classification"), "] for user "), Slot(Key("recipient"), "")]

  /** The description template of line 29, as its text around its
      placeholders. */
  const DescriptionTemplate: string := Render(DescriptionLead, DescriptionSlots, map[])

  const DescriptionLead := "User "
  const DescriptionSlots := [
    Slot(Key("recipient"), " received a "),
    Slot(Key("classification"), " email on "),
    Slot(Key("timedate"), ".\nSender: "),
    Slot(Key("email_sender"), "\nSubject: "),
    Slot(Key("email_subject"), "\n\nConfidence level: "),
    Slot(Key("confidence_level"), "\nActions taken: See comments")]

  /** A name that starts with a lower-case letter and holds no `%` gives a
      placeholder. */
  lemma KeyPlaceholder(name: string)
    requires name != [] && '%' !in name && 'a' <= name[0] <= 'z'
    ensures Placeholder(Key(name))
  {
    assert Key(name)[1..|Key(name)| - 1] == name;
  }

  lemma SummaryWellFormed()
    ensures WellFormed(SummaryLead, SummarySlots)
  {
    KeyPlaceholder("classification");
    KeyPlaceholder("recipient");
    forall i | 0 <= i < |SummarySlots|
      ensures Placeholder(SummarySlots[i].key) && '%' !in SummarySlots[i].after
      ensures NameStartFree(SummarySlots[i].after) && (SummarySlots[i].after == [] ==> i == |SummarySlots| - 1)
    {
    }
  }

  /** Well-formedness checked one slot at a time. */
  predicate SlotOk(s: Slot) {
    Placeholder(s.key) && '%' !in s.after && s.after != [] && NameStartFree(s.after)
  }

  lemma SixSlotsWellFormed(ss: seq<Slot>)
    requires |ss| == 6
    requires SlotOk(ss[0]) && SlotOk(ss[1]) && SlotOk(ss[2]) && SlotOk(ss[3]) && SlotOk(ss[4]) && SlotOk(ss[5])
    ensures WellFormed([], ss)
  {
  }

  lemma RecipientSlot()
    ensures SlotOk(DescriptionSlots[0])
  {
    KeyPlaceholder("recipient");
  }

  lemma ClassificationSlot()
    ensures SlotOk(DescriptionSlots[1])
  {
    KeyPlaceholder("classification");
  }

  lemma TimedateSlot()
    ensures SlotOk(DescriptionSlots[2])
  {
    KeyPlaceholder("timedate");
  }

  lemma SenderSlot()
    ensures SlotOk(DescriptionSlots[3])
  {
    KeyPlaceholder("email_sender");
  }

  lemma SubjectSlot()
    ensures SlotOk(DescriptionSlots[4])
  {
    KeyPlaceholder("email_subject");
  }

  lemma ConfidenceSlot()
    ensures SlotOk(DescriptionSlots[5])
  {
    KeyPlaceholder("confidence_level");
  }

  lemma DescriptionWellFormed()
    ensures WellFormed(DescriptionLead, DescriptionSlots)
  {
    RecipientSlot();
    ClassificationSlot();
    TimedateSlot();
    SenderSlot();
    SubjectSlot();
    ConfidenceSlot();
    SixSlotsWellFormed(DescriptionSlots);
  }

  /** Rendering moves the first slot's text into the lead. */
  lemma RenderStep(lead: string, ss: seq<Slot>, m: map<string, string>)
    requires ss != []
    ensures Render(lead, ss, m) == Render(lead + Value(ss[0].key, m) + ss[0].after, ss[1..], m)
  {
    var v, a, r := Value(ss[0].key, m), ss[0].after, RenderSlots(ss[1..], m);
    assert lead + (v + a + r) == lead + v + a + r;
  }

  /** Rendering six slots lays out their text in order. */
  lemma RenderSix(lead: string, ss: seq<Slot>, m: map<string, string>)
    requires |ss| == 6
    ensures Render(lead, ss, m)
         == lead + Value(ss[0].key, m) + ss[0].after + Value(ss[1].key, m) + ss[1].after
            + Value(ss[2].key, m) + ss[2].after + Value(ss[3].key, m) + ss[3].after
            + Value(ss[4].key, m) + ss[4].after + Value(ss[5].key, m) + ss[5].after
  {
    var l1 := lead + Value(ss[0].key, m) + ss[0].after;
    var l2 := l1 + Value(ss[1].key, m) + ss[1].after;
    var l3 := l2 + Value(ss[2].key, m) + ss[2].after;
    var l4 := l3 + Value(ss[3].key, m) + ss[3].after;
    var l5 := l4 + Value(ss[4].key, m) + ss[4].after;
    var l6 := l5 + Value(ss[5].key, m) + ss[5].after;
    RenderStep(lead, ss, m);
    assert ss[1..][0] == ss[1] && ss[1..][1..] == ss[2..];
    RenderStep(l1, ss[1..], m);
    assert ss[2..][0] == ss[2] && ss[2..][1..] == ss[3..];
    RenderStep(l2, ss[2..], m);
    assert ss[3..][0] == ss[3] && ss[3..][1..] == ss[4..];
    RenderStep(l3, ss[3..], m);
    assert ss[4..][0] == ss[4] && ss[4..][1..] == ss[5..];
    RenderStep(l4, ss[4..], m);
    assert ss[5..][0] == ss[5] && ss[5..][1..] == [];
    RenderStep(l5, ss[5..], m);
    assert Render(l6, [], m) == l6;
  }

  /** The six keys are placeholders. */
  lemma SubstitutionPlaceholders(c: string, cl: string, r: string, es: string, subj: string, td: string)
    ensures var subs := Substitutions(c, cl, r, es, subj, td);
            forall i :: 0 <= i < |subs| ==> Placeholder(subs[i].0)
  {
    var subs := Substitutions(c, cl, r, es, subj, td);
    forall i | 0 <= i < |subs|
      ensures Placeholder(subs[i].0)
    {
      if i == 0 { KeyPlaceholder("classification"); }
      else if i == 1 { KeyPlaceholder("recipient"); }
      else if i == 2 { KeyPlaceholder("timedate"); }
      else if i == 3 { KeyPlaceholder("email_sender"); }
      else if i == 4 { KeyPlaceholder("email_subject"); }
      else { KeyPlaceholder("confidence_level"); }
    }
  }

  /** The six keys differ, already in their lengths. */
  lemma SubstitutionKeysDistinct(c: string, cl: string, r: string, es: string, subj: string, td: string)
    ensures var subs := Substitutions(c, cl, r, es, subj, td);
            forall i, j :: 0 <= i < j < |subs| ==> subs[i].0 != subs[j].0
  {
    var subs := Substitutions(c, cl, r, es, subj, td);
    forall i, j | 0 <= i < j < |subs|
      ensures subs[i].0 != subs[j].0
    {
      assert |subs[i].0| != |subs[j].0|;
    }
  }

  /** Values without `%`: the substitution pairs are clean. */
  lemma SubstitutionsClean(c: string, cl: string, r: string, es: string, subj: string, td: string)
    requires '%' !in c && '%' !in cl && '%' !in r && '%' !in es && '%' !in subj && '%' !in td
    ensures CleanPairs(Substitutions(c, cl, r, es, subj, td))
  {
    SubstitutionPlaceholders(c, cl, r, es, subj, td);
    SubstitutionKeysDistinct(c, cl, r, es, subj, td);
  }

  /** Where each placeholder's value ends up after the substitutions. */
  lemma SubstitutionValues(c: string, cl: string, r: string, es: string, subj: string, td: string)
    requires '%' !in c && '%' !in cl && '%' !in r && '%' !in es && '%' !in subj && '%' !in td
    ensures var m := MapOf(Substitutions(c, cl, r, es, subj, td));
            && Value(Key("classification"), m) == c && Value(Key("recipient"), m) == r
            && Value(Key("timedate"), m) == td && Value(Key("email_sender"), m) == es
            && Value(Key("email_subject"), m) == subj && Value(Key("confidence_level"), m) == cl
  {
    var subs := Substitutions(c, cl, r, es, subj, td);
    SubstitutionsClean(c, cl, r, es, subj, td);
    assert subs[..6] == subs;
    forall i | 0 <= i < 6
      ensures subs[i].0 in MapOf(subs) && MapOf(subs)[subs[i].0] == subs[i].1
    {
      MapOfHolds(subs, i, 6);
    }
    assert subs[0] == (Key("classification"), c) && subs[1] == (Key("recipient"), r);
    assert subs[2] == (Key("timedate"), td) && subs[3] == (Key("email_sender"), es);
    assert subs[4] == (Key("email_subject"), subj) && subs[5] == (Key("confidence_level"), cl);
  }

  lemma {:induction false} MapOfHolds(subs: seq<(string, string)>, i: nat, n: nat)
    requires CleanPairs(subs) && i < n <= |subs|
    ensures subs[i].0 in MapOf(subs[..n]) && MapOf(subs[..n])[subs[i].0] == subs[i].1
    decreases n
  {
    assert subs[..n][..n - 1] == subs[..n - 1];
    if i < n - 1 {
      MapOfHolds(subs, i, n - 1);
    }
  }

  /** The rendered text of the summary before the values are known. */
  lemma SummaryLayout(m: map<string, string>)
    ensures Render(SummaryLead, SummarySlots, m)
         == "[" + Value(Key("classification"), m) + "] for user " + Value(Key("recipient"), m)
  {
    var ss := SummarySlots;
    var c, r := Value(Key("classification"), m), Value(Key("recipient"), m);
    RenderStep(SummaryLead, ss, m);
    assert ss[1..][0] == ss[1] && ss[1..][1..] == [];
    RenderStep(SummaryLead + c + "] for user ", ss[1..], m);
    assert Render(SummaryLead + c + "] for user " + r + "", [], m) == "[" + c + "] for user " + r;
  }

  /** The rendered text of the description before the values are known. */
  lemma DescriptionLayout(m: map<string, string>)
    ensures Render(DescriptionLead, DescriptionSlots, m)
         == "User " + Value(Key("recipient"), m) + " received a " + Value(Key("classification"), m)
            + " email on " + Value(Key("timedate"), m) + ".\nSender: " + Value(Key("email_sender"), m)
            + "\nSubject: " + Value(Key("email_subject"), m) + "\n\nConfidence level: "
            + Value(Key("confidence_level"), m) + "\nActions taken: See comments"
  {
    RenderSix(DescriptionLead, DescriptionSlots, m);
  }

  /** The summary template is the literal of line 28. */
  lemma SummaryTemplateText()
    ensures SummaryTemplate == "[%classification%] for user %recipient%"
  {
    SummaryLayout(map[]);
    SummaryKeys();
    SummaryPieces();
  }

  lemma SummaryKeys()
    ensures Key("classification") == "%classification%" && Key("recipient") == "%recipient%"
  {
  }

  lemma SummaryPieces()
    ensures "[" + "%classification%" + "] for user " + "%recipient%" == "[%classification%] for user %recipient%"
  {
    assert "[" + "%classification%" == "[%classification%";
    assert "[%classification%" + "] for user " == "[%classification%] for user ";
  }

  /** With no `%` in any value, the summary of `__parse_template` is
      `[classification] for user recipient`. */
  lemma SummaryFilled(c: string, cl: string, r: string, es: string, subj: string, td: string)
    requires '%' !in c && '%' !in cl && '%' !in r && '%' !in es && '%' !in subj && '%' !in td
    ensures ReplaceAll(SummaryTemplate, Substitutions(c, cl, r, es, subj, td)) == "[" + c + "] for user " + r
  {
    var subs := Substitutions(c, cl, r, es, subj, td);
    SubstitutionsClean(c, cl, r, es, subj, td);
    SubstitutionValues(c, cl, r, es, subj, td);
    SummaryWellFormed();
    ReplaceAllRender(SummaryLead, SummarySlots, subs);
    SummaryLayout(MapOf(subs));
  }

  /** With no `%` in any value, the description of `__parse_template` reads
      out the six values in the template's order. */
  lemma DescriptionFilled(c: string, cl: string, r: string, es: string, subj: string, td: string)
    requires '%' !in c && '%' !in cl && '%' !in r && '%' !in es && '%' !in subj && '%' !in td
    ensures ReplaceAll(DescriptionTemplate, Substitutions(c, cl, r, es, subj, td))
         == "User " + r + " received a " + c + " email on " + td + ".\nSender: " + es
            + "\nSubject: " + subj + "\n\nConfidence level: " + cl + "\nActions taken: See comments"
  {
    var subs := Substitutions(c, cl, r, es, subj, td);
    SubstitutionsClean(c, cl, r, es, subj, td);
    SubstitutionValues(c, cl, r, es, subj, td);
    DescriptionWellFormed();
    ReplaceAllRender(DescriptionLead, DescriptionSlots, subs);
    DescriptionLayout(MapOf(subs));
  }

  /** A well-formed template whose every placeholder gets a `%`-free value
      comes out of the substitutions without `%`. */
  lemma FilledPercentFree(lead: string, slots: seq<Slot>, subs: seq<(string, string)>)
    requires WellFormed(lead, slots) && CleanPairs(subs)
    requires forall i :: 0 <= i < |slots| ==> '%' !in Value(slots[i].key, MapOf(subs))
    ensures NonEmptyKeys(subs)
    ensures '%' !in ReplaceAll(Render(lead, slots, map[]), subs)
  {
    ReplaceAllRender(lead, slots, subs);
    RenderSlotsPercentFree(slots, MapOf(subs));
  }

  /** With no `%` in any value, the summary holds no `%` afterwards. */
  lemma SummaryPercentFree(c: string, cl: string, r: string, es: string, subj: string, td: string)
    requires '%' !in c && '%' !in cl && '%' !in r && '%' !in es && '%' !in subj && '%' !in td
    ensures '%' !in ReplaceAll(SummaryTemplate, Substitutions(c, cl, r, es, subj, td))
  {
    SubstitutionsClean(c, cl, r, es, subj, td);
    SubstitutionValues(c, cl, r, es, subj, td);
    SummaryWellFormed();
    FilledPercentFree(SummaryLead, SummarySlots, Substitutions(c, cl, r, es, subj, td));
  }

  /** With no `%` in any value, the description holds no `%` afterwards. */
  lemma DescriptionPercentFree(c: string, cl: string, r: string, es: string, subj: string, td: string)
    requires '%' !in c && '%' !in cl && '%' !in r && '%' !in es && '%' !in subj && '%' !in td
    ensures '%' !in ReplaceAll(DescriptionTemplate, Substitutions(c, cl, r, es, subj, td))
  {
    SubstitutionsClean(c, cl, r, es, subj, td);
    SubstitutionValues(c, cl, r, es, subj, td);
    DescriptionWellFormed();
    FilledPercentFree(DescriptionLead, DescriptionSlots, Substitutions(c, cl, r, es, subj, td));
  }

  /** Text without `%` holds no placeholder. */
  lemma PercentFreeNoPlaceholder(s: string, k: string)
    requires '%' !in s && Placeholder(k)
    ensures !Contains(s, k)
  {
  }

  /** The loop leaves no placeholder behind when no value holds `%`. */
  lemma NoPlaceholderLeft(c: string, cl: string, r: string, es: string, subj: string, td: string, k: string)
    requires '%' !in c && '%' !in cl && '%' !in r && '%' !in es && '%' !in subj && '%' !in td
    requires Placeholder(k)
    ensures var subs := Substitutions(c, cl, r, es, subj, td);
            !Contains(ReplaceAll(SummaryTemplate, subs), k) && !Contains(ReplaceAll(DescriptionTemplate, subs), k)
  {
    var subs := Substitutions(c, cl, r, es, subj, td);
    SummaryPercentFree(c, cl, r, es, subj, td);
    DescriptionPercentFree(c, cl, r, es, subj, td);
    PercentFreeNoPlaceholder(ReplaceAll(SummaryTemplate, subs), k);
    PercentFreeNoPlaceholder(ReplaceAll(DescriptionTemplate, subs), k);
  }

  // ---------------------------------------------------------------------
  // The "user notified" comment (lines 193-198)
  // ---------------------------------------------------------------------

  const NotifiedHeader := "Response sent to user "
  const MessageHeader := "\nMessage:\n  "

  /** The comment body `add_comment_user_notified` posts. */
  function NotifiedBody(notifiedUser: string, message: string := "", via: string := "email"): (body: string)
    ensures NotifiedHeader <= body
    ensures |body| == |NotifiedHeader| + |notifiedUser| + |" via "| + |via| + 1
                      + (if message == [] then 0 else |MessageHeader| + |message|)
    ensures message != [] ==> body[|body| - |message|..] == message
  {
    var body := NotifiedHeader + notifiedUser + " via " + via + ".";
    if message != [] then body + MessageHeader + message else body
  }

  /** For one user and channel, different messages give different bodies,
      and an empty message cannot be confused with a non-empty one. */
  lemma NotifiedMessageRecoverable(u: string, via: string, m1: string, m2: string)
    requires NotifiedBody(u, m1, via) == NotifiedBody(u, m2, via)
    ensures m1 == m2
  {
    if m1 != [] && m2 != [] {
      assert |m1| == |m2|;
    }
  }

  /** Without a message the body is the single sentence; the default channel
      is email. */
  lemma NotifiedDefaults(u: string)
    ensures NotifiedBody(u) == "Response sent to user " + u + " via email."
  {
  }
}
