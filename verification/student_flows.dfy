/** Properties of the student operations that span several calls. */
module StudentFlows {
  import opened Text
  import opened Store
  import opened Auth
  import opened Students

  /** The hardcoded default password opens every account the search finds,
      whatever that account's own password is. */
  lemma DefaultPasswordOpensAnyAccount(st: Store, username: string, j: nat)
    requires ReadChildren(st).Found?
    requires j < |ReadChildren(st).value| && MatchesLogin(ReadChildren(st).value[j], username)
    ensures StudentLogin(st, username, DefaultPassword).outcome == Done
  {
    var l := FirstIndex(ReadChildren(st).value, c => MatchesLogin(c, username));
    assert !l.NotFound?;
  }

  /** A child just added can log in with its username and password, as
      long as no earlier child answers to the same username. */
  lemma AddedChildCanLogIn(st: Store, f: ChildForm, now: nat)
    requires !ReadCurrentUser(st).Unreadable? && ReadChildren(st).Found?
    requires var c := NewChild(f, ParentIdOf(ReadCurrentUser(st)), now);
             forall j :: 0 <= j < |ReadChildren(st).value| ==> !MatchesLogin(ReadChildren(st).value[j], c.username)
    ensures var c := NewChild(f, ParentIdOf(ReadCurrentUser(st)), now);
            var s := StudentLogin(AddChild(st, f, now).store, c.username, c.password);
            && s.outcome == Done
            && s.store[CurrentStudentKey] == CurrentStudent(c)
  {
    var c := NewChild(f, ParentIdOf(ReadCurrentUser(st)), now);
    var s1 := AddChild(st, f, now);
    var cs := ReadChildren(st).value;
    var cs' := cs + [c];
    assert ReadChildren(s1.store) == Found(cs');
    var l := FirstIndex(cs', x => MatchesLogin(x, c.username));
    assert MatchesLogin(cs'[|cs|], c.username);
    assert forall j :: 0 <= j < |cs| ==> cs'[j] == cs[j];
  }

  /** Logging out after a student login leaves the store as logging out
      would have left it without the login: the login touched nothing but
      the student session. */
  lemma LogoutUndoesStudentLogin(st: Store, username: string, password: string)
    ensures StudentLogout(StudentLogin(st, username, password).store) == StudentLogout(st)
  {
    var s := StudentLogin(st, username, password);
    assert forall k :: k in StudentLogout(s.store) <==> k in StudentLogout(st);
  }

  /** Lower-casing twice is lower-casing once. */
  lemma LowerIdempotent(s: string)
    ensures Lower(Lower(s)) == Lower(s)
  {
  }

  /** A child whose username was defaulted is found by it in any letter
      case, through the first-name rule. */
  lemma DefaultUsernameAnyCase(c: Child, typed: string)
    requires c.username == Lower(c.firstName) + StudentDomain
    requires Lower(typed) == c.username
    ensures MatchesLogin(c, typed)
  {
    var n := Lower(c.firstName);
    assert Lower(c.username) == Lower(n) + Lower(StudentDomain) by {
      assert c.username == n + StudentDomain;
    }
    LowerIdempotent(c.firstName);
  }

  /** Writing the same student back twice changes nothing the second time. */
  lemma UpdateStudentDataIdempotent(st: Store, student: Child)
    requires ReadChildren(st).Found?
    ensures var s1 := UpdateStudentData(st, student);
            UpdateStudentData(s1.store, student).store == s1.store
  {
    var cs := ReadChildren(st).value;
    var p := (c: Child) => c.id == student.id;
    var s1 := UpdateStudentData(st, student);
    match FirstIndex(cs, p)
    case NotFound =>
    case At(i) =>
      var cs' := cs[i := student];
      assert ReadChildren(s1.store) == Found(cs');
      var l := FirstIndex(cs', p);
      assert p(cs'[i]);
      assert forall j :: 0 <= j < i ==> cs'[j] == cs[j];
      assert cs'[i := student] == cs';
  }

  /** A transaction moves the balance by its amount and the stored copy
      follows when the student is on file. */
  lemma TransactionReachesStore(d: Dashboard, st: Store, t: Transaction)
    requires ReadChildren(st).Found?
    requires exists j :: 0 <= j < |ReadChildren(st).value| && ReadChildren(st).value[j].id == d.student.id
    ensures var res := AddTransaction(d, st, t);
            && res.0.student.balance == d.student.balance + t.amount
            && res.1.store[CurrentStudentKey] == CurrentStudent(res.0.student)
            && res.0.student in res.1.store[ChildrenKey].children
  {
    var res := AddTransaction(d, st, t);
    var cs := ReadChildren(st).value;
    var l := FirstIndex(cs, (c: Child) => c.id == res.0.student.id);
    assert l.At?;
    assert cs[l.index := res.0.student][l.index] == res.0.student;
  }
}
