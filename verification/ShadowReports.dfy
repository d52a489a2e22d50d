/**
 Form reports of a page and its frames: summarising one, moving it under the
 scope of its frame, and combining several. Keys must stay unique throughout.

 A summary lists the controls with their locators, tells which of them share
 one, which take a file, and whether a button leads on. Moving a report rewrites
 scope and key of every entry; combining joins the entries in order and
 summarises them again, so that what is unique in every part has to stay unique
 in the whole.
 */
module ShadowReports {
  import opened Wrappers
  import opened Identity
  import opened Indexing

  /** A control; the allowlisted attributes that play no part here travel in `rest`. */
  datatype Control = Control(scope: string, key: string, tag: string, elementId: string, name: string, isFile: bool,
                             rest: string)

  datatype Action = Action(scope: string, key: string, caption: string, visible: bool, rest: string)

  datatype Form = Form(controls: seq<Control>, actions: seq<Action>)

  /** A locator without its scope: tag, whether by id, value. */
  datatype Locator = Locator(tag: string, byId: bool, text: string)

  /** The digest of controls and actions is library behaviour. */
  datatype Report = Report(form: Form, fingerprint: string, collisions: seq<seq<string>>, fileKeys: seq<string>,
                           nextObserved: bool)

  datatype FormError = InvalidControl | InvalidAction | DuplicateIdentity

  function KeyOf(): Control -> string {
    (c: Control) => c.key
  }

  // ----- Summarising

  function LocatorOf(c: Control): Option<Locator> {
    if c.elementId != "" then Some(Locator(c.tag, true, c.elementId))
    else if c.name != "" then Some(Locator(c.tag, false, c.name))
    else None
  }

  /** The keys of the controls with this locator, in order. */
  function GroupOf(controls: seq<Control>, l: Locator): seq<string> {
    if controls == [] then []
    else
      var n := |controls| - 1;
      GroupOf(controls[..n], l) + if LocatorOf(controls[n]) == Some(l) then [controls[n].key] else []
  }

  /** The locators in use, each at its first appearance. */
  function LocatorsOf(controls: seq<Control>): seq<Locator> {
    if controls == [] then []
    else
      var n := |controls| - 1;
      var l := LocatorOf(controls[n]);
      LocatorsOf(controls[..n]) + if l.None? || l.value in LocatorsOf(controls[..n]) then [] else [l.value]
  }

  function SharedGroups(controls: seq<Control>, locators: seq<Locator>): seq<seq<string>> {
    if locators == [] then []
    else
      var n := |locators| - 1;
      var group := GroupOf(controls, locators[n]);
      SharedGroups(controls, locators[..n]) + if |group| > 1 then [group] else []
  }

  function FileKeys(controls: seq<Control>): seq<string> {
    if controls == [] then []
    else
      var n := |controls| - 1;
      FileKeys(controls[..n]) + if controls[n].isFile then [controls[n].key] else []
  }

  predicate IsNext(a: Action) {
    a.visible && Lower(Strip(a.caption)) in {"next", "continue", "proceed"}
  }

  function Summary(digest: Form -> string, form: Form): Report {
    Report(form, digest(form), SharedGroups(form.controls, LocatorsOf(form.controls)), FileKeys(form.controls),
           exists a | a in form.actions :: IsNext(a))
  }

  function Summarize(digest: Form -> string, form: Form): Result<Report, FormError> {
    if exists c | c in form.controls :: c.key == "" then Err(InvalidControl)
    else if exists a | a in form.actions :: a.key == "" then Err(InvalidAction)
    else if |Indexed(KeyOf(), form.controls)| != |form.controls| then Err(DuplicateIdentity)
    else Ok(Summary(digest, form))
  }

  /** A control is addressed by its id, and by its name only for want of one. */
  lemma LocatorIs(c: Control, l: Locator)
    ensures LocatorOf(c) == Some(l) <==>
            l.tag == c.tag && |l.text| > 0 && if l.byId then l.text == c.elementId else c.elementId == "" && l.text == c.name
  {
  }

  lemma {:induction false} FileKeysAre(controls: seq<Control>, key: string)
    ensures key in FileKeys(controls) <==> exists c :: c in controls && c.isFile && c.key == key
  {
    if controls != [] {
      var n := |controls| - 1;
      FileKeysAre(controls[..n], key);
      assert controls == controls[..n] + [controls[n]];
    }
  }

  /** The rest of a summary: the file controls, and whether a visible button reads "next", "continue" or "proceed". */
  lemma SummaryReads(digest: Form -> string, form: Form, key: string)
    ensures var s := Summary(digest, form);
            && s.form == form && s.fingerprint == digest(form)
            && (key in s.fileKeys <==> exists c :: c in form.controls && c.isFile && c.key == key)
            && (s.nextObserved <==> exists a :: a in form.actions && a.visible
                                                && (Lower(Strip(a.caption)) == "next" || Lower(Strip(a.caption)) == "continue"
                                                    || Lower(Strip(a.caption)) == "proceed"))
  {
    FileKeysAre(form.controls, key);
  }

  /** The dictionary of locator groups, filled control by control; `order` is the order of its keys. */
  method FillGroups(controls: seq<Control>) returns (order: seq<Locator>, groups: map<Locator, seq<string>>)
    ensures order == LocatorsOf(controls)
    ensures forall l :: l in groups <==> l in order
    ensures forall l | l in groups :: groups[l] == GroupOf(controls, l)
  {
    order, groups := [], map[];
    for i := 0 to |controls|
      invariant order == LocatorsOf(controls[..i])
      invariant forall l :: l in groups <==> l in order
      invariant forall l | l in groups :: groups[l] == GroupOf(controls[..i], l)
      invariant forall l | l !in groups :: GroupOf(controls[..i], l) == []
    {
      assert controls[..i + 1][..i] == controls[..i];
      var l := LocatorOf(controls[i]);
      if l.Some? {
        if l.value !in groups {
          order, groups := order + [l.value], groups[l.value := []];
        }
        groups := groups[l.value := groups[l.value] + [controls[i].key]];
      }
    }
    assert controls[..|controls|] == controls;
  }

  /** Its groups of two or more. */
  method GroupLocators(controls: seq<Control>) returns (collisions: seq<seq<string>>)
    ensures collisions == SharedGroups(controls, LocatorsOf(controls))
  {
    var order, groups := FillGroups(controls);
    collisions := [];
    for i := 0 to |order|
      invariant collisions == SharedGroups(controls, order[..i])
    {
      assert order[..i + 1][..i] == order[..i];
      if |groups[order[i]]| > 1 {
        collisions := collisions + [groups[order[i]]];
      }
    }
    assert order[..|order|] == order;
  }

  // ----- What the collisions are

  lemma {:induction false} LocatorsAreAll(controls: seq<Control>, l: Locator)
    ensures l in LocatorsOf(controls) <==> GroupOf(controls, l) != []
  {
    if controls != [] {
      LocatorsAreAll(controls[..|controls| - 1], l);
    }
  }

  lemma {:induction false} SharedGroupsAre(controls: seq<Control>, locators: seq<Locator>, g: seq<string>)
    ensures g in SharedGroups(controls, locators) <==> exists l | l in locators :: g == GroupOf(controls, l) && |g| > 1
  {
    if locators != [] {
      var n := |locators| - 1;
      SharedGroupsAre(controls, locators[..n], g);
      assert locators == locators[..n] + [locators[n]];
      if l :| l in locators && g == GroupOf(controls, l) && |g| > 1 {
        if l in locators[..n] {
          assert g in SharedGroups(controls, locators[..n]);
        } else {
          assert SharedGroups(controls, locators)[|SharedGroups(controls, locators)| - 1] == g;
        }
      }
      if g in SharedGroups(controls, locators) {
        if g in SharedGroups(controls, locators[..n]) {
          var l :| l in locators[..n] && g == GroupOf(controls, l) && |g| > 1;
          assert l in locators;
        } else {
          assert locators[n] in locators && g == GroupOf(controls, locators[n]);
        }
      }
    }
  }

  /** The collisions are exactly the locator groups of two or more controls. */
  lemma {:induction false} CollisionsAreTheSharedGroups(controls: seq<Control>, g: seq<string>)
    ensures g in SharedGroups(controls, LocatorsOf(controls)) <==> exists l :: g == GroupOf(controls, l) && |g| > 1
  {
    SharedGroupsAre(controls, LocatorsOf(controls), g);
    forall l | g == GroupOf(controls, l) && |g| > 1
      ensures l in LocatorsOf(controls)
    {
      LocatorsAreAll(controls, l);
    }
  }

  lemma {:induction false} MemberIsInGroup(controls: seq<Control>, l: Locator, i: nat)
    requires i < |controls| && LocatorOf(controls[i]) == Some(l)
    ensures controls[i].key in GroupOf(controls, l)
  {
    var n := |controls| - 1;
    if i < n {
      assert controls[..n][i] == controls[i];
      MemberIsInGroup(controls[..n], l, i);
    } else {
      assert GroupOf(controls, l) == GroupOf(controls[..n], l) + [controls[n].key];
    }
  }

  lemma {:induction false} GroupMemberComesFrom(controls: seq<Control>, l: Locator, k: string) returns (i: nat)
    requires k in GroupOf(controls, l)
    ensures i < |controls| && controls[i].key == k && LocatorOf(controls[i]) == Some(l)
  {
    var n := |controls| - 1;
    if k in GroupOf(controls[..n], l) {
      i := GroupMemberComesFrom(controls[..n], l, k);
      assert controls[..n][i] == controls[i];
    } else {
      i := n;
    }
  }

  lemma {:induction false} GroupHasKey(controls: seq<Control>, l: Locator, k: string)
    ensures k in GroupOf(controls, l)
            <==> exists i :: 0 <= i < |controls| && controls[i].key == k && LocatorOf(controls[i]) == Some(l)
  {
    if k in GroupOf(controls, l) {
      var i := GroupMemberComesFrom(controls, l, k);
    }
    if i :| 0 <= i < |controls| && controls[i].key == k && LocatorOf(controls[i]) == Some(l) {
      MemberIsInGroup(controls, l, i);
    }
  }

  /** Two controls with a common locator make its group at least two long. */
  lemma {:induction false} TwoMakeAGroup(controls: seq<Control>, l: Locator, i: nat, j: nat)
    requires i < j < |controls| && LocatorOf(controls[i]) == LocatorOf(controls[j]) == Some(l)
    ensures |GroupOf(controls, l)| > 1
  {
    var n := |controls| - 1;
    if j < n {
      TwoMakeAGroup(controls[..n], l, i, j);
    } else {
      assert controls[..n][i] == controls[i];
      GroupHasKey(controls[..n], l, controls[i].key);
    }
  }

  lemma {:induction false} AGroupHasTwo(controls: seq<Control>, l: Locator, i: nat) returns (j: nat)
    requires i < |controls| && LocatorOf(controls[i]) == Some(l) && |GroupOf(controls, l)| > 1
    ensures j < |controls| && j != i && LocatorOf(controls[j]) == Some(l)
  {
    var n := |controls| - 1;
    if i < n {
      if LocatorOf(controls[n]) == Some(l) {
        return n;
      }
      assert controls[..n][i] == controls[i];
      j := AGroupHasTwo(controls[..n], l, i);
      assert controls[..n][j] == controls[j];
    } else {
      var k := GroupOf(controls[..n], l)[0];
      GroupHasKey(controls[..n], l, k);
      j :| 0 <= j < n && controls[..n][j].key == k && LocatorOf(controls[..n][j]) == Some(l);
    }
  }

  /** A control is listed in a collision exactly when another control has its locator. */
  lemma {:induction false} CollisionIff(controls: seq<Control>, i: nat)
    requires i < |controls| && Distinct(KeyOf(), controls)
    ensures (exists g | g in SharedGroups(controls, LocatorsOf(controls)) :: controls[i].key in g)
            <==> LocatorOf(controls[i]).Some?
                 && exists j | 0 <= j < |controls| && j != i :: LocatorOf(controls[j]) == LocatorOf(controls[i])
  {
    var groups, k := SharedGroups(controls, LocatorsOf(controls)), controls[i].key;
    if g :| g in groups && k in g {
      CollisionsAreTheSharedGroups(controls, g);
      var l :| g == GroupOf(controls, l) && |g| > 1;
      GroupHasKey(controls, l, k);
      var m :| 0 <= m < |controls| && controls[m].key == k && LocatorOf(controls[m]) == Some(l);
      assert KeyOf()(controls[m]) == KeyOf()(controls[i]);
      assert m == i;
      var j := AGroupHasTwo(controls, l, i);
    }
    if LocatorOf(controls[i]).Some? {
      var l := LocatorOf(controls[i]).value;
      if j :| 0 <= j < |controls| && j != i && LocatorOf(controls[j]) == Some(l) {
        TwoMakeAGroup(controls, l, if i < j then i else j, if i < j then j else i);
        GroupHasKey(controls, l, k);
        CollisionsAreTheSharedGroups(controls, GroupOf(controls, l));
      }
    }
  }

  // ----- Scopes

  const DOCUMENT := "document"

  /** `_rebase_scope`. */
  function Rebase(path: string, scope: string): string {
    if path == DOCUMENT then scope
    else if DOCUMENT + "/" <= path then scope + path[|DOCUMENT|..]
    else if path != "" then scope + "/" + path
    else scope
  }

  /** The part of a path below its document. */
  function Relative(path: string): string {
    if path == DOCUMENT || path == "" then ""
    else if DOCUMENT + "/" <= path then path[|DOCUMENT|..]
    else "/" + path
  }

  /** The top document, or the frame with this index. */
  datatype Scope = Top | Frame(index: nat)

  function ScopeName(s: Scope): string {
    match s
    case Top => DOCUMENT
    case Frame(index) => "frame:" + (Decimal(index) + ("/" + DOCUMENT))
  }

  lemma RebaseAppends(path: string, scope: string)
    ensures Rebase(path, scope) == scope + Relative(path)
    ensures Relative(path) == "" || Relative(path)[0] == '/'
  {
  }

  /** Digits before a slash can be split off. */
  lemma {:induction false} FrameIndexDetermined(i: nat, x: string, j: nat, y: string)
    requires Decimal(i) + ("/" + x) == Decimal(j) + ("/" + y)
    ensures i == j && x == y
  {
    DecimalIsDigits(i);
    DecimalIsDigits(j);
    var s, a, b := Decimal(i) + ("/" + x), |Decimal(i)|, |Decimal(j)|;
    assert s[a] == '/' && s[b] == '/';
    assert forall k | 0 <= k < a :: s[k] == Decimal(i)[k] && IsDigit(s[k]);
    assert forall k | 0 <= k < b :: s[k] == Decimal(j)[k] && IsDigit(s[k]);
    assert a == b;
    assert Decimal(i) == s[..a] == Decimal(j);
    DecimalIsInjective(i, j);
    assert "/" + x == s[a..] == "/" + y;
    assert x == s[a..][1..] && y == s[a..][1..];
  }

  lemma PrefixCancels(prefix: string, x: string, y: string)
    ensures prefix + x == prefix + y <==> x == y
  {
    if prefix + x == prefix + y {
      assert x == (prefix + x)[|prefix|..] && y == (prefix + y)[|prefix|..];
    }
  }

  lemma TailMoves(a: string, b: string, c: string, d: string, x: string)
    ensures a + (b + (c + d)) + x == a + (b + (c + (d + x)))
  {
    assert c + d + x == c + (d + x);
    assert b + (c + d) + x == b + (c + d + x);
    assert a + (b + (c + d)) + x == a + (b + (c + d) + x);
  }

  lemma FramesMeetIff(i: nat, x: string, j: nat, y: string)
    ensures ScopeName(Frame(i)) + x == ScopeName(Frame(j)) + y <==> i == j && x == y
  {
    TailMoves("frame:", Decimal(i), "/", DOCUMENT, x);
    TailMoves("frame:", Decimal(j), "/", DOCUMENT, y);
    PrefixCancels("frame:", Decimal(i) + ("/" + (DOCUMENT + x)), Decimal(j) + ("/" + (DOCUMENT + y)));
    if ScopeName(Frame(i)) + x == ScopeName(Frame(j)) + y {
      FrameIndexDetermined(i, DOCUMENT + x, j, DOCUMENT + y);
      PrefixCancels(DOCUMENT, x, y);
    }
  }

  lemma ScopesMeetIff(a: Scope, x: string, b: Scope, y: string)
    ensures ScopeName(a) + x == ScopeName(b) + y <==> a == b && x == y
  {
    var s, t := ScopeName(a) + x, ScopeName(b) + y;
    assert s[0] == ScopeName(a)[0] && t[0] == ScopeName(b)[0];
    if a.Frame? && b.Frame? {
      FramesMeetIff(a.index, x, b.index, y);
    } else if a.Top? && b.Top? {
      assert s[|DOCUMENT|..] == x && t[|DOCUMENT|..] == y;
    }
  }

  /** Two paths meet after rebasing exactly when scope and relative path both agree, for all frame indices. */
  lemma RebaseIsExact(p: string, a: Scope, q: string, b: Scope)
    ensures Rebase(p, ScopeName(a)) == Rebase(q, ScopeName(b)) <==> a == b && Relative(p) == Relative(q)
  {
    RebaseAppends(p, ScopeName(a));
    RebaseAppends(q, ScopeName(b));
    ScopesMeetIff(a, Relative(p), b, Relative(q));
  }

  /** The extractor's keys. */
  predicate Documentary(path: string) {
    DOCUMENT + "/" <= path
  }

  lemma RelativeIsExact(p: string, q: string)
    requires Documentary(p) && Documentary(q)
    ensures Relative(p) == Relative(q) <==> p == q
  {
    if Relative(p) == Relative(q) {
      assert p == DOCUMENT + p[|DOCUMENT|..] && q == DOCUMENT + q[|DOCUMENT|..];
    }
  }

  /** Without the extractor's prefix the same scope can merge two keys. */
  lemma UnprefixedKeysCanMeet(scope: string)
    ensures "document/a" != "a" && Rebase("document/a", scope) == Rebase("a", scope)
  {
    assert "document/a"[0] != "a"[0];
    RebaseAppends("document/a", scope);
    RebaseAppends("a", scope);
    assert "document/a"[|DOCUMENT|..] == "/" + "a";
  }

  // ----- Moving and combining reports

  function Moved(c: Control, scope: string): Control {
    c.(scope := Rebase(c.scope, scope), key := Rebase(c.key, scope))
  }

  function MovedControls(controls: seq<Control>, scope: string): seq<Control> {
    seq(|controls|, i requires 0 <= i < |controls| => Moved(controls[i], scope))
  }

  function MovedAction(a: Action, scope: string): Action {
    a.(scope := Rebase(a.scope, scope), key := Rebase(a.key, scope))
  }

  function MovedActions(actions: seq<Action>, scope: string): seq<Action> {
    seq(|actions|, i requires 0 <= i < |actions| => MovedAction(actions[i], scope))
  }

  function ScopeReport(digest: Form -> string, form: Form, scope: string): Result<Report, FormError> {
    Summarize(digest, Form(MovedControls(form.controls, scope), MovedActions(form.actions, scope)))
  }

  function JoinedControls(forms: seq<Form>): seq<Control> {
    if forms == [] then [] else JoinedControls(forms[..|forms| - 1]) + forms[|forms| - 1].controls
  }

  function JoinedActions(forms: seq<Form>): seq<Action> {
    if forms == [] then [] else JoinedActions(forms[..|forms| - 1]) + forms[|forms| - 1].actions
  }

  function Joined(forms: seq<Form>): Form {
    Form(JoinedControls(forms), JoinedActions(forms))
  }

  function Combine(digest: Form -> string, forms: seq<Form>): Result<Report, FormError> {
    Summarize(digest, Joined(forms))
  }

  /** The scoping loop. */
  method ScopeShadowReport(digest: Form -> string, form: Form, scope: string) returns (r: Result<Report, FormError>)
    ensures r == ScopeReport(digest, form, scope)
  {
    var controls := [];
    for i := 0 to |form.controls|
      invariant controls == MovedControls(form.controls, scope)[..i]
    {
      controls := controls + [Moved(form.controls[i], scope)];
    }
    var actions := [];
    for i := 0 to |form.actions|
      invariant actions == MovedActions(form.actions, scope)[..i]
    {
      actions := actions + [MovedAction(form.actions[i], scope)];
    }
    assert controls == MovedControls(form.controls, scope) && actions == MovedActions(form.actions, scope);
    r := SummarizeShadowForm(digest, Form(controls, actions));
  }

  /** The combining loop. */
  method CombineShadowReports(digest: Form -> string, forms: seq<Form>) returns (r: Result<Report, FormError>)
    ensures r == Combine(digest, forms)
  {
    var controls, actions := [], [];
    for i := 0 to |forms|
      invariant controls == JoinedControls(forms[..i]) && actions == JoinedActions(forms[..i])
    {
      assert forms[..i + 1][..i] == forms[..i];
      controls := controls + forms[i].controls;
      actions := actions + forms[i].actions;
    }
    assert forms[..|forms|] == forms;
    r := SummarizeShadowForm(digest, Form(controls, actions));
  }

  method SummarizeShadowForm(digest: Form -> string, form: Form) returns (r: Result<Report, FormError>)
    ensures r == Summarize(digest, form)
  {
    if exists c | c in form.controls :: c.key == "" {
      return Err(InvalidControl);
    }
    if exists a | a in form.actions :: a.key == "" {
      return Err(InvalidAction);
    }
    if |Indexed(KeyOf(), form.controls)| != |form.controls| {
      return Err(DuplicateIdentity);
    }
    var collisions := GroupLocators(form.controls);
    var next := exists a | a in form.actions :: IsNext(a);
    r := Ok(Report(form, digest(form), collisions, FileKeys(form.controls), next));
  }

  /** One report as the extractor made it, with the scope it belongs under. */
  datatype Part = Part(scope: Scope, form: Form)

  /** Nonempty keys, those of the controls unique and below the document. */
  ghost predicate Extracted(form: Form) {
    && Distinct(KeyOf(), form.controls)
    && (forall c | c in form.controls :: Documentary(c.key))
    && forall a | a in form.actions :: Documentary(a.key)
  }

  ghost predicate WellScoped(parts: seq<Part>) {
    && (forall p | p in parts :: Extracted(p.form))
    && forall i, j | 0 <= i < j < |parts| :: parts[i].scope != parts[j].scope
  }

  function MovedForm(p: Part): Form {
    Form(MovedControls(p.form.controls, ScopeName(p.scope)), MovedActions(p.form.actions, ScopeName(p.scope)))
  }

  function MovedForms(parts: seq<Part>): seq<Form> {
    seq(|parts|, i requires 0 <= i < |parts| => MovedForm(parts[i]))
  }

  lemma JoinedLast(parts: seq<Part>)
    requires parts != []
    ensures var n := |parts| - 1;
            && JoinedControls(MovedForms(parts)) == JoinedControls(MovedForms(parts[..n])) + MovedForm(parts[n]).controls
            && JoinedActions(MovedForms(parts)) == JoinedActions(MovedForms(parts[..n])) + MovedForm(parts[n]).actions
  {
    assert MovedForms(parts)[..|parts| - 1] == MovedForms(parts[..|parts| - 1]);
  }

  /** Where a key of the combined form comes from. */
  lemma {:induction false} JoinedComesFrom(parts: seq<Part>, k: nat) returns (i: nat, c: Control)
    requires k < |JoinedControls(MovedForms(parts))|
    ensures i < |parts| && c in parts[i].form.controls
    ensures JoinedControls(MovedForms(parts))[k] == Moved(c, ScopeName(parts[i].scope))
  {
    var n := |parts| - 1;
    JoinedLast(parts);
    var before := JoinedControls(MovedForms(parts[..n]));
    if k < |before| {
      i, c := JoinedComesFrom(parts[..n], k);
    } else {
      i, c := n, parts[n].form.controls[k - |before|];
    }
  }

  lemma MovedStayDistinct(form: Form, scope: Scope)
    requires Extracted(form)
    ensures Distinct(KeyOf(), MovedControls(form.controls, ScopeName(scope)))
  {
    var moved := MovedControls(form.controls, ScopeName(scope));
    forall i, j | 0 <= i < j < |moved|
      ensures moved[i].key != moved[j].key
    {
      var p, q := form.controls[i], form.controls[j];
      assert KeyOf()(p) != KeyOf()(q);
      RebaseIsExact(p.key, scope, q.key, scope);
      RelativeIsExact(p.key, q.key);
    }
  }

  lemma DistinctJoins(a: seq<Control>, b: seq<Control>)
    requires Distinct(KeyOf(), a) && Distinct(KeyOf(), b)
    requires forall k, m | 0 <= k < |a| && 0 <= m < |b| :: a[k].key != b[m].key
    ensures Distinct(KeyOf(), a + b)
  {
    var all := a + b;
    forall i, j | 0 <= i < j < |all|
      ensures all[i].key != all[j].key
    {
      if j < |a| {
        assert KeyOf()(a[i]) != KeyOf()(a[j]);
      } else if i >= |a| {
        assert KeyOf()(b[i - |a|]) != KeyOf()(b[j - |a|]);
      }
    }
  }

  /** A report under a new scope shares no key with what was joined before. */
  lemma NewScopeIsApart(parts: seq<Part>, p: Part, k: nat, m: nat)
    requires forall q | q in parts :: q.scope != p.scope
    requires k < |JoinedControls(MovedForms(parts))| && m < |p.form.controls|
    ensures JoinedControls(MovedForms(parts))[k].key != MovedForm(p).controls[m].key
  {
    var i, c := JoinedComesFrom(parts, k);
    assert parts[i] in parts;
    RebaseIsExact(c.key, parts[i].scope, p.form.controls[m].key, p.scope);
  }

  /** Distinct scopes keep all keys of all reports distinct. */
  lemma {:induction false} KeysStayDistinct(parts: seq<Part>)
    requires WellScoped(parts)
    ensures Distinct(KeyOf(), JoinedControls(MovedForms(parts)))
  {
    if parts != [] {
      var n := |parts| - 1;
      JoinedLast(parts);
      assert parts[n] in parts;
      KeysStayDistinct(parts[..n]);
      MovedStayDistinct(parts[n].form, parts[n].scope);
      var before, own := JoinedControls(MovedForms(parts[..n])), MovedForm(parts[n]).controls;
      forall k, m | 0 <= k < |before| && 0 <= m < |own|
        ensures before[k].key != own[m].key
      {
        NewScopeIsApart(parts[..n], parts[n], k, m);
      }
      DistinctJoins(before, own);
    }
  }

  function TotalControls(parts: seq<Part>): nat {
    if parts == [] then 0 else TotalControls(parts[..|parts| - 1]) + |parts[|parts| - 1].form.controls|
  }

  lemma {:induction false} JoinedCount(parts: seq<Part>)
    ensures |JoinedControls(MovedForms(parts))| == TotalControls(parts)
  {
    if parts != [] {
      var n := |parts| - 1;
      JoinedLast(parts);
      JoinedCount(parts[..n]);
    }
  }

  lemma {:induction false} JoinedKeysPresent(parts: seq<Part>)
    requires forall p | p in parts :: Extracted(p.form)
    ensures forall c | c in JoinedControls(MovedForms(parts)) :: c.key != ""
    ensures forall a | a in JoinedActions(MovedForms(parts)) :: a.key != ""
  {
    if parts != [] {
      var n := |parts| - 1;
      JoinedLast(parts);
      JoinedKeysPresent(parts[..n]);
      assert parts[n] in parts;
      var name := ScopeName(parts[n].scope);
      forall c | c in parts[n].form.controls
        ensures Moved(c, name).key != ""
      {
        RebaseAppends(c.key, name);
      }
      forall a | a in parts[n].form.actions
        ensures MovedAction(a, name).key != ""
      {
        RebaseAppends(a.key, name);
      }
    }
  }

  /** Combining the reports of a page and its frames never fails, and loses no control. */
  lemma {:induction false} CombiningNeverCollides(digest: Form -> string, parts: seq<Part>)
    requires WellScoped(parts)
    ensures Combine(digest, MovedForms(parts)).Ok?
    ensures |Combine(digest, MovedForms(parts)).value.form.controls| == TotalControls(parts)
  {
    KeysStayDistinct(parts);
    JoinedCount(parts);
    JoinedKeysPresent(parts);
    SizeTestsDistinctness(KeyOf(), JoinedControls(MovedForms(parts)));
  }

  lemma {:induction false} JoinedSplits(a: seq<Form>, b: seq<Form>)
    ensures JoinedControls(a + b) == JoinedControls(a) + JoinedControls(b)
    ensures JoinedActions(a + b) == JoinedActions(a) + JoinedActions(b)
  {
    if b == [] {
      assert a + b == a;
    } else {
      assert (a + b)[..|a + b| - 1] == a + b[..|b| - 1];
      JoinedSplits(a, b[..|b| - 1]);
    }
  }

  lemma PartsOfDistinct(a: seq<Control>, b: seq<Control>)
    requires Distinct(KeyOf(), a + b)
    ensures Distinct(KeyOf(), a) && Distinct(KeyOf(), b)
  {
    forall i, j | 0 <= i < j < |a|
      ensures a[i].key != a[j].key
    {
      assert KeyOf()((a + b)[i]) != KeyOf()((a + b)[j]);
    }
    forall i, j | 0 <= i < j < |b|
      ensures b[i].key != b[j].key
    {
      assert KeyOf()((a + b)[|a| + i]) != KeyOf()((a + b)[|a| + j]);
    }
  }

  ghost predicate Sound(form: Form) {
    && (forall c | c in form.controls :: c.key != "") && (forall a | a in form.actions :: a.key != "")
    && Distinct(KeyOf(), form.controls)
  }

  lemma SummarizedIff(digest: Form -> string, form: Form)
    ensures Summarize(digest, form).Ok? <==> Sound(form)
  {
    SizeTestsDistinctness(KeyOf(), form.controls);
  }

  lemma SoundParts(x: Form, y: Form)
    requires Sound(Form(x.controls + y.controls, x.actions + y.actions))
    ensures Sound(x) && Sound(y)
  {
    PartsOfDistinct(x.controls, y.controls);
    assert forall c | c in x.controls || c in y.controls :: c in x.controls + y.controls;
    assert forall c | c in x.actions || c in y.actions :: c in x.actions + y.actions;
  }

  lemma JoinedPair(x: Form, y: Form)
    ensures Joined([x, y]) == Form(x.controls + y.controls, x.actions + y.actions)
  {
    assert [x, y][..1] == [x] && [x][..0] == [];
    assert JoinedControls([x]) == x.controls && JoinedActions([x]) == x.actions;
  }

  /** Combining in two stages is combining at once: the same report, or a failure both ways. */
  lemma CombiningIsAssociative(digest: Form -> string, a: seq<Form>, b: seq<Form>)
    ensures Combine(digest, a + b).Ok? ==> Combine(digest, a).Ok? && Combine(digest, b).Ok?
    ensures Combine(digest, a).Ok? && Combine(digest, b).Ok?
            ==> Combine(digest, [Combine(digest, a).value.form, Combine(digest, b).value.form]) == Combine(digest, a + b)
  {
    JoinedSplits(a, b);
    SummarizedIff(digest, Joined(a));
    SummarizedIff(digest, Joined(b));
    SummarizedIff(digest, Joined(a + b));
    if Combine(digest, a + b).Ok? {
      SoundParts(Joined(a), Joined(b));
    }
    JoinedPair(Joined(a), Joined(b));
  }
}
