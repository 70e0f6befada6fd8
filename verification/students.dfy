/** The student side of the demo: `StudentAuth.studentLogin` over the
    children list, adding a child from the parent dashboard, recording a
    transaction on the student dashboard, and redeeming reward points.
    Money is in integer cents. */
module Students {
  import opened Text
  import opened Store
  import opened Auth

  /** The password every student login accepts. */
  const DefaultPassword: string := "defaultpass123"

  /** The suffix of the username a child gets by default. */
  const StudentDomain: string := "@hapo.com"

  datatype Lookup = NotFound | At(index: nat)

  /** `Array.prototype.findIndex`: the first position whose element
      satisfies `p`. */
  function FirstIndex(xs: seq<Child>, p: Child -> bool): (l: Lookup)
    ensures l.NotFound? <==> forall j :: 0 <= j < |xs| ==> !p(xs[j])
    ensures l.At? ==> l.index < |xs| && p(xs[l.index])
                      && forall j :: 0 <= j < l.index ==> !p(xs[j])
  {
    if |xs| == 0 then NotFound
    else if p(xs[0]) then At(0)
    else match FirstIndex(xs[1..], p)
      case NotFound => NotFound
      case At(i) => At(i + 1)
  }

  /** The login search: the username as stored, or the lower-cased first
      name at the student domain against the lower-cased input. */
  predicate MatchesLogin(c: Child, username: string) {
    c.username == username || Lower(c.firstName) + StudentDomain == Lower(username)
  }

  /** `studentLogin` succeeds on the first matching child when the password
      is that child's or the default one. */
  predicate CanStudentLogin(st: Store, username: string, password: string) {
    && ReadChildren(st).Found?
    && var cs := ReadChildren(st).value;
       var l := FirstIndex(cs, c => MatchesLogin(c, username));
       l.At? && (cs[l.index].password == password || password == DefaultPassword)
  }

  function StudentLogin(st: Store, username: string, password: string): (s: Step)
    ensures s.outcome.Succeeded() <==> CanStudentLogin(st, username, password)
    ensures !s.outcome.Succeeded() ==> s.store == st
    ensures ReadChildren(st).Unreadable? ==> s.outcome == Failed("Login failed. Please try again.")
    ensures ReadChildren(st).Found?
            && (forall j :: 0 <= j < |ReadChildren(st).value| ==> !MatchesLogin(ReadChildren(st).value[j], username))
            ==> s.outcome == Failed("Student account not found")
    ensures ReadChildren(st).Found?
            && FirstIndex(ReadChildren(st).value, c => MatchesLogin(c, username)).At?
            && !CanStudentLogin(st, username, password)
            ==> s.outcome == Failed("Invalid password")
    ensures s.outcome.Succeeded() ==>
            var cs := ReadChildren(st).value;
            var l := FirstIndex(cs, c => MatchesLogin(c, username));
            && s.outcome == Done
            && l.At?
            && CurrentStudentKey in s.store
            && s.store[CurrentStudentKey] == CurrentStudent(cs[l.index])
            && (cs[l.index].password == password || password == DefaultPassword)
            && OnlyChanged(st, s.store, {CurrentStudentKey})
    ensures Consistent(st) ==> Consistent(s.store)
  {
    match ReadChildren(st)
    case Found(cs) =>
      (match FirstIndex(cs, c => MatchesLogin(c, username))
       case NotFound => Step(Failed("Student account not found"), st)
       case At(i) =>
         var student := cs[i];
         if student.password != password && password != DefaultPassword then
           Step(Failed("Invalid password"), st)
         else
           Step(Done, st[CurrentStudentKey := CurrentStudent(student)]))
    case _ => Step(Failed("Login failed. Please try again."), st)
  }

  /** `studentLogout`, without the navigation. */
  function StudentLogout(st: Store): (st': Store)
    ensures CurrentStudentKey !in st'
    ensures OnlyChanged(st, st', {CurrentStudentKey})
    ensures Consistent(st) ==> Consistent(st')
  {
    st - {CurrentStudentKey}
  }

  /** A limit field after `parseFloat`: a number, or NaN. */
  datatype LimitInput = NotANumber | Amount(cents: int)

  /** `parseFloat(x) || fallback`: NaN and zero are both falsy. */
  function LimitOr(l: LimitInput, fallback: int): (v: int)
    ensures l.Amount? && l.cents != 0 ==> v == l.cents
    ensures l.NotANumber? || l.cents == 0 ==> v == fallback
  {
    if l.Amount? && l.cents != 0 then l.cents else fallback
  }

  /** The add-child form; empty strings are what `FormData` gives for blank
      inputs. */
  datatype ChildForm = ChildForm(
    firstName: string,
    lastName: string,
    username: string,
    password: string,
    weeklyLimit: LimitInput,
    dailyLimit: LimitInput)

  const DefaultWeeklyLimit: int := 5000
  const DefaultDailyLimit: int := 1000
  const DemoParent: string := "parent_demo"

  /** The child record the add-child handler builds. */
  function NewChild(f: ChildForm, parentId: string, now: nat): Child {
    Child(
      id := "child_" + Codes.Decimal(now),
      firstName := f.firstName,
      lastName := f.lastName,
      username := if f.username != "" then f.username else Lower(f.firstName) + StudentDomain,
      password := if f.password != "" then f.password else DefaultPassword,
      weeklyLimit := LimitOr(f.weeklyLimit, DefaultWeeklyLimit),
      dailyLimit := LimitOr(f.dailyLimit, DefaultDailyLimit),
      balance := 0,
      parentId := parentId,
      createdAt := now,
      active := true)
  }

  /** The parent id stamped on a new child: the logged-in user's id when it
      is non-empty, otherwise the demo parent. */
  function ParentIdOf(current: Slot<Snapshot>): string {
    if current.Found? && current.value.id != "" then current.value.id else DemoParent
  }

  /** The add-child handler: appends the new child to `hapo_children`. */
  function AddChild(st: Store, f: ChildForm, now: nat): (s: Step)
    ensures ReadCurrentUser(st).Unreadable? ==> s == Step(Crashed, st)
    ensures !ReadCurrentUser(st).Unreadable? && ReadChildren(st).Unreadable? ==>
            s == Step(Failed("Failed to create child account. Please try again."), st)
    ensures s.outcome.Succeeded() <==> !ReadCurrentUser(st).Unreadable? && ReadChildren(st).Found?
    ensures s.outcome.Succeeded() ==>
            var c := NewChild(f, ParentIdOf(ReadCurrentUser(st)), now);
            && s.outcome == Done
            && ChildrenKey in s.store
            && s.store[ChildrenKey] == Children(ReadChildren(st).value + [c])
            && c.balance == 0 && c.active
            && (f.username == "" ==> c.username == Lower(f.firstName) + StudentDomain)
            && (f.password == "" ==> c.password == DefaultPassword)
            && (f.weeklyLimit.NotANumber? ==> c.weeklyLimit == DefaultWeeklyLimit)
            && (f.dailyLimit.NotANumber? ==> c.dailyLimit == DefaultDailyLimit)
            && OnlyChanged(st, s.store, {ChildrenKey})
    ensures Consistent(st) ==> Consistent(s.store)
  {
    var current := ReadCurrentUser(st);
    if current.Unreadable? then Step(Crashed, st)
    else
      var child := NewChild(f, ParentIdOf(current), now);
      match ReadChildren(st)
      case Found(cs) => Step(Done, st[ChildrenKey := Children(cs + [child])])
      case _ => Step(Failed("Failed to create child account. Please try again."), st)
  }

  datatype Transaction = Transaction(id: int, title: string, category: string, amount: int, date: int, icon: string)

  /** The student dashboard's in-memory state. */
  datatype Dashboard = Dashboard(student: Child, transactions: seq<Transaction>)

  /** `updateStudentData`: writes the dashboard's student over the first
      stored child with the same id, and as the current student. An
      unparsable children list throws. */
  function UpdateStudentData(st: Store, student: Child): (s: Step)
    ensures ReadChildren(st).Unreadable? ==> s == Step(Crashed, st)
    ensures ReadChildren(st).Found? ==> s.outcome == Done
    ensures ReadChildren(st).Found?
            && (forall j :: 0 <= j < |ReadChildren(st).value| ==> ReadChildren(st).value[j].id != student.id)
            ==> s.store == st
    ensures ReadChildren(st).Found? && FirstIndex(ReadChildren(st).value, (c: Child) => c.id == student.id).At? ==>
            var cs := ReadChildren(st).value;
            var i := FirstIndex(cs, (c: Child) => c.id == student.id).index;
            && ChildrenKey in s.store
            && s.store[ChildrenKey] == Children(cs[i := student])
            && CurrentStudentKey in s.store && s.store[CurrentStudentKey] == CurrentStudent(student)
            && OnlyChanged(st, s.store, {ChildrenKey, CurrentStudentKey})
    ensures Consistent(st) ==> Consistent(s.store)
  {
    match ReadChildren(st)
    case Found(cs) =>
      (match FirstIndex(cs, (c: Child) => c.id == student.id)
       case NotFound => Step(Done, st)
       case At(i) =>
         var st1 := st[ChildrenKey := Children(cs[i := student])];
         Step(Done, st1[CurrentStudentKey := CurrentStudent(student)]))
    case _ => Step(Crashed, st)
  }

  /** `addTransaction`: the transaction goes first in the list, the balance
      moves by its signed amount, and the student is written back. */
  function AddTransaction(d: Dashboard, st: Store, t: Transaction): (res: (Dashboard, Step))
    ensures res.0.transactions == [t] + d.transactions
    ensures res.0.student == d.student.(balance := d.student.balance + t.amount)
    ensures res.1 == UpdateStudentData(st, res.0.student)
  {
    var student := d.student.(balance := d.student.balance + t.amount);
    (Dashboard(student, [t] + d.transactions), UpdateStudentData(st, student))
  }

  /** The points each reward costs; other reward names have no price. */
  function RewardCost(rewardType: string): (cost: int)
    ensures rewardType == "allowance" ==> cost == 500
    ensures rewardType == "curfew" ==> cost == 750
    ensures rewardType != "allowance" && rewardType != "curfew" ==> cost == -1
  {
    if rewardType == "allowance" then 500
    else if rewardType == "curfew" then 750
    else -1
  }

  /** `redeemReward`: the displayed point total after the click. Only a
      known reward, a logged-in student, enough points and a confirmed
      dialog deduct anything; no store is touched. */
  function RedeemReward(hasStudent: bool, rewardType: string, totalPoints: int, confirmed: bool): (points: int)
    ensures points != totalPoints <==>
            hasStudent && RewardCost(rewardType) > 0 && totalPoints >= RewardCost(rewardType) && confirmed
    ensures points != totalPoints ==> points == totalPoints - RewardCost(rewardType)
    ensures totalPoints >= 0 ==> points >= 0
  {
    var cost := RewardCost(rewardType);
    // an unknown reward's cost is `undefined`, and `n >= undefined` is false
    if !hasStudent || cost < 0 then totalPoints
    else if totalPoints >= cost && confirmed then totalPoints - cost
    else totalPoints
  }
}
