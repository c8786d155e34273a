/** The client-side data store of the React app (src/contexts/DataContext.tsx and its
    JavaScript twin DataContext.jsx): habits with their check-ins, badges, habit duels,
    roommates, secrets and moods, each held as a list that the store's functions replace by
    a new list. Ids and dates come from the clock (`Date.now()`, today's ISO date) and are
    parameters here; dates are the strings the store keeps. */
module ClientData {
  import opened Wrappers
  import Time
  import ClientLists

  /** `{...record, ...updates}` on one field: an update that has the field wins. */
  function Over<T>(update: Option<T>, v: T): T {
    update.GetOr(v)
  }

  /** The field of two updates applied in turn: the later one wins where it has the field. */
  function Later<T>(first: Option<T>, second: Option<T>): Option<T> {
    if second.Some? then second else first
  }

  // ---------------------------------------------------------------- habits

  datatype HabitCheckIn = HabitCheckIn(date: string, completed: bool, timestamp: string)
  datatype Frequency = Daily | Weekly | Monthly
  datatype Difficulty = Easy | Medium | Hard

  datatype Habit = Habit(
    id: string, name: string, description: string, frequency: Frequency,
    streak: int, longestStreak: int, completed: bool,
    category: string, color: string, icon: string, createdDate: string,
    lastCheckIn: Option<string>, checkIns: seq<HabitCheckIn>, reminderTime: Option<string>,
    isActive: bool, difficulty: Difficulty, points: int)

  /** What `addHabit` is given: a habit without id, createdDate, checkIns, streak,
      longestStreak and points. */
  datatype HabitDraft = HabitDraft(
    name: string, description: string, frequency: Frequency, completed: bool,
    category: string, color: string, icon: string, lastCheckIn: Option<string>,
    reminderTime: Option<string>, isActive: bool, difficulty: Difficulty)

  function HabitId(h: Habit): string { h.id }

  /** The draft fields of a habit. */
  function DraftOf(h: Habit): HabitDraft {
    HabitDraft(h.name, h.description, h.frequency, h.completed, h.category, h.color, h.icon,
               h.lastCheckIn, h.reminderTime, h.isActive, h.difficulty)
  }

  /** `difficultyPoints`: what a habit of each difficulty is worth. */
  function DifficultyPoints(d: Difficulty): (r: int)
    ensures r == 10 || r == 15 || r == 20
    ensures d == Easy <==> r == 10
    ensures d == Hard <==> r == 20
  {
    match d
    case Easy => 10
    case Medium => 15
    case Hard => 20
  }

  /** `addHabit`: the new habit comes first, with no check-ins, no streak, and the points of
      its difficulty; the draft's fields are kept as given. */
  function AddHabit(habits: seq<Habit>, draft: HabitDraft, id: string, today: string): (r: seq<Habit>)
    ensures |r| == |habits| + 1 && r[1..] == habits
    ensures DraftOf(r[0]) == draft
    ensures r[0].id == id && r[0].createdDate == today
    ensures r[0].checkIns == [] && r[0].streak == 0 && r[0].longestStreak == 0
    ensures r[0].points == DifficultyPoints(draft.difficulty)
  {
    var h := Habit(id, draft.name, draft.description, draft.frequency, 0, 0, draft.completed,
                   draft.category, draft.color, draft.icon, today, draft.lastCheckIn, [],
                   draft.reminderTime, draft.isActive, draft.difficulty,
                   DifficultyPoints(draft.difficulty));
    assert ClientLists.Prepend(h, habits)[1..] == habits;
    ClientLists.Prepend(h, habits)
  }

  /** `Partial<Habit>`: the fields an update sets. */
  datatype HabitPatch = HabitPatch(
    id: Option<string>, name: Option<string>, description: Option<string>,
    frequency: Option<Frequency>, streak: Option<int>, longestStreak: Option<int>,
    completed: Option<bool>, category: Option<string>, color: Option<string>,
    icon: Option<string>, createdDate: Option<string>, lastCheckIn: Option<Option<string>>,
    checkIns: Option<seq<HabitCheckIn>>, reminderTime: Option<Option<string>>,
    isActive: Option<bool>, difficulty: Option<Difficulty>, points: Option<int>)

  /** `{ ...habit, ...updates }`. */
  function MergeHabit(h: Habit, p: HabitPatch): Habit {
    Habit(Over(p.id, h.id), Over(p.name, h.name), Over(p.description, h.description),
          Over(p.frequency, h.frequency), Over(p.streak, h.streak),
          Over(p.longestStreak, h.longestStreak), Over(p.completed, h.completed),
          Over(p.category, h.category), Over(p.color, h.color), Over(p.icon, h.icon),
          Over(p.createdDate, h.createdDate), Over(p.lastCheckIn, h.lastCheckIn),
          Over(p.checkIns, h.checkIns), Over(p.reminderTime, h.reminderTime),
          Over(p.isActive, h.isActive), Over(p.difficulty, h.difficulty), Over(p.points, h.points))
  }

  /** Two habit updates in turn, as one. */
  function ThenHabit(p: HabitPatch, q: HabitPatch): HabitPatch {
    HabitPatch(Later(p.id, q.id), Later(p.name, q.name), Later(p.description, q.description),
               Later(p.frequency, q.frequency), Later(p.streak, q.streak),
               Later(p.longestStreak, q.longestStreak), Later(p.completed, q.completed),
               Later(p.category, q.category), Later(p.color, q.color), Later(p.icon, q.icon),
               Later(p.createdDate, q.createdDate), Later(p.lastCheckIn, q.lastCheckIn),
               Later(p.checkIns, q.checkIns), Later(p.reminderTime, q.reminderTime),
               Later(p.isActive, q.isActive), Later(p.difficulty, q.difficulty),
               Later(p.points, q.points))
  }

  /** Merging the same update twice is merging it once, and two merges in turn are the merge
      of the combined update. */
  lemma MergeHabitLaws(h: Habit, p: HabitPatch, q: HabitPatch)
    ensures MergeHabit(MergeHabit(h, p), p) == MergeHabit(h, p)
    ensures MergeHabit(MergeHabit(h, p), q) == MergeHabit(h, ThenHabit(p, q))
  {
  }

  /** `updateHabit`: every habit with the id gets the update, the others stay as they were;
      an update without an id keeps every id. */
  function UpdateHabit(habits: seq<Habit>, id: string, p: HabitPatch): (r: seq<Habit>)
    ensures |r| == |habits|
    ensures forall i :: 0 <= i < |habits| ==>
              r[i] == if habits[i].id == id then MergeHabit(habits[i], p) else habits[i]
    ensures p.id.None? ==> forall i :: 0 <= i < |habits| ==> r[i].id == habits[i].id
  {
    ClientLists.MapWhere(habits, HabitId, id, (h: Habit) => MergeHabit(h, p))
  }

  /** `deleteHabit`: exactly the habits with other ids remain. */
  function DeleteHabit(habits: seq<Habit>, id: string): (r: seq<Habit>)
    ensures forall h :: h in r <==> h in habits && h.id != id
    ensures forall h :: multiset(r)[h] == if h.id != id then multiset(habits)[h] else 0
    ensures |r| <= |habits|
  {
    ClientLists.RemoveWhere(habits, HabitId, id)
  }

  /** The date of a check-in: the one given, or today when none (or an empty one) is. */
  function CheckDate(date: Option<string>, today: string): (r: string)
    ensures date.Some? && date.value != "" ==> r == date.value
    ensures date.None? || date.value == "" ==> r == today
  {
    if date.Some? && date.value != "" then date.value else today
  }

  /** One check-in of a habit: a completed check-in is appended (nothing checks for one on the
      same date), the streak grows by one, the longest streak is the larger of the old longest
      and the new streak, and the habit is completed and last checked in on that date. */
  function CheckedIn(h: Habit, checkDate: string, timestamp: string): (r: Habit)
    ensures r.checkIns == h.checkIns + [HabitCheckIn(checkDate, true, timestamp)]
    ensures r.streak == h.streak + 1
    ensures r.longestStreak >= r.streak && r.longestStreak >= h.longestStreak
    ensures r.longestStreak == h.longestStreak || r.longestStreak == r.streak
    ensures r.completed && r.lastCheckIn == Some(checkDate)
    ensures r == h.(checkIns := r.checkIns, streak := r.streak, longestStreak := r.longestStreak,
                    completed := true, lastCheckIn := r.lastCheckIn)
  {
    var streak := h.streak + 1;
    h.(checkIns := h.checkIns + [HabitCheckIn(checkDate, true, timestamp)],
       streak := streak,
       longestStreak := if h.longestStreak >= streak then h.longestStreak else streak,
       completed := true,
       lastCheckIn := Some(checkDate))
  }

  /** Checking in twice on one date records two check-ins and counts two streak days. */
  lemma CheckInTwice(h: Habit, d: string, t1: string, t2: string)
    ensures var r := CheckedIn(CheckedIn(h, d, t1), d, t2);
      && |r.checkIns| == |h.checkIns| + 2
      && r.checkIns[|h.checkIns|].date == d && r.checkIns[|h.checkIns| + 1].date == d
      && r.streak == h.streak + 2
  {
  }

  /** The check-in part of `checkInHabit` on the list of habits. */
  function HabitsCheckedIn(habits: seq<Habit>, id: string, checkDate: string, timestamp: string)
    : (r: seq<Habit>)
    ensures |r| == |habits|
    ensures forall i :: 0 <= i < |habits| ==>
              r[i] == if habits[i].id == id then CheckedIn(habits[i], checkDate, timestamp) else habits[i]
    ensures forall i :: 0 <= i < |habits| ==> r[i].id == habits[i].id
  {
    ClientLists.MapWhere(habits, HabitId, id, (h: Habit) => CheckedIn(h, checkDate, timestamp))
  }

  // ---------------------------------------------------------------- badges

  datatype Badge = Badge(id: string, name: string, description: string, icon: string,
                         earnedDate: Option<string>, progress: Option<int>, target: Option<int>)

  /** The badges `checkAndAwardBadges` knows: First Step, Week Warrior and Month Master. */
  const FirstStep := "1"
  const WeekWarrior := "2"
  const MonthMaster := "3"

  /** The streak a streak badge asks for. */
  function StreakTarget(id: string): (r: Option<int>)
    ensures r.Some? <==> id == WeekWarrior || id == MonthMaster
    ensures id == WeekWarrior ==> r == Some(7)
    ensures id == MonthMaster ==> r == Some(30)
  {
    if id == WeekWarrior then Some(7) else if id == MonthMaster then Some(30) else None
  }

  /** One badge after a check-in of habit `h`: an unearned First Step is earned when the habit
      has exactly one check-in; an unearned streak badge is earned when the streak reaches its
      target, and otherwise records the streak as its progress. Earned badges and other
      badges stay as they were. */
  function Award(b: Badge, h: Habit, today: string): (r: Badge)
    ensures b.earnedDate.Some? ==> r == b
    ensures b.id != FirstStep && StreakTarget(b.id).None? ==> r == b
    ensures b.id == FirstStep && b.earnedDate.None? ==>
              r == if |h.checkIns| == 1 then b.(earnedDate := Some(today)) else b
    ensures StreakTarget(b.id).Some? && b.earnedDate.None? ==>
              r == if h.streak >= StreakTarget(b.id).value then b.(earnedDate := Some(today))
                   else b.(progress := Some(h.streak))
  {
    var first := if b.id == FirstStep && b.earnedDate.None? && |h.checkIns| == 1
                 then b.(earnedDate := Some(today)) else b;
    var week := if b.id == WeekWarrior && h.streak >= 7 && b.earnedDate.None?
                then first.(earnedDate := Some(today))
                else if b.id == WeekWarrior && b.earnedDate.None? then first.(progress := Some(h.streak))
                else first;
    if b.id == MonthMaster && h.streak >= 30 && b.earnedDate.None? then week.(earnedDate := Some(today))
    else if b.id == MonthMaster && b.earnedDate.None? then week.(progress := Some(h.streak))
    else week
  }

  /** `habits.find(h => h.id === habitId)`. */
  function FindHabit(habits: seq<Habit>, id: string): (r: Option<nat>)
    ensures r.Some? ==> r.value < |habits| && habits[r.value].id == id
                        && forall j :: 0 <= j < r.value ==> habits[j].id != id
    ensures r.None? <==> forall j :: 0 <= j < |habits| ==> habits[j].id != id
  {
    if habits == [] then None
    else if habits[0].id == id then Some(0)
    else match FindHabit(habits[1..], id)
      case None => None
      case Some(k) => Some(k + 1)
  }

  /** `checkAndAwardBadges`: every badge judged on the first habit with the id; nothing
      changes when there is none. */
  function AwardBadges(badges: seq<Badge>, habits: seq<Habit>, id: string, today: string)
    : (r: seq<Badge>)
    ensures FindHabit(habits, id).None? ==> r == badges
    ensures FindHabit(habits, id).Some? ==>
              |r| == |badges|
              && forall i :: 0 <= i < |badges| ==>
                   r[i] == Award(badges[i], habits[FindHabit(habits, id).value], today)
  {
    match FindHabit(habits, id)
    case None => badges
    case Some(k) => seq(|badges|, i requires 0 <= i < |badges| => Award(badges[i], habits[k], today))
  }

  /** Habits and badges after `checkInHabit` as written: the habits are checked in, but the
      badges are judged on `habits` as it was before the check-in, because the award reads
      the list the render captured. */
  function CheckInHabitAsWritten(habits: seq<Habit>, badges: seq<Badge>, id: string,
                                 date: Option<string>, today: string, timestamp: string)
    : (r: (seq<Habit>, seq<Badge>))
    ensures r.0 == HabitsCheckedIn(habits, id, CheckDate(date, today), timestamp)
    ensures r.1 == AwardBadges(badges, habits, id, today)
  {
    (HabitsCheckedIn(habits, id, CheckDate(date, today), timestamp),
     AwardBadges(badges, habits, id, today))
  }

  /** Habits and badges after `checkInHabit` as its badges mean it: judged on the habit with
      the check-in just made. */
  function CheckInHabit(habits: seq<Habit>, badges: seq<Badge>, id: string,
                        date: Option<string>, today: string, timestamp: string)
    : (r: (seq<Habit>, seq<Badge>))
    ensures r.0 == HabitsCheckedIn(habits, id, CheckDate(date, today), timestamp)
    ensures r.1 == AwardBadges(badges, r.0, id, today)
  {
    var checked := HabitsCheckedIn(habits, id, CheckDate(date, today), timestamp);
    (checked, AwardBadges(badges, checked, id, today))
  }

  /** Lists with the same ids at the same places find the same habit. */
  lemma {:induction false} FindSameIds(a: seq<Habit>, b: seq<Habit>, id: string)
    requires |a| == |b| && forall i :: 0 <= i < |a| ==> a[i].id == b[i].id
    ensures FindHabit(a, id) == FindHabit(b, id)
    decreases |a|
  {
    if a != [] {
      FindSameIds(a[1..], b[1..], id);
    }
  }

  /** The first habit with the id is the same one after the check-in. */
  lemma FindAfterCheckIn(habits: seq<Habit>, id: string, checkDate: string, timestamp: string)
    ensures FindHabit(HabitsCheckedIn(habits, id, checkDate, timestamp), id) == FindHabit(habits, id)
  {
    FindSameIds(HabitsCheckedIn(habits, id, checkDate, timestamp), habits, id);
  }

  /** As written, the first check-in of a habit does not earn First Step: the award sees the
      habit with no check-in yet. */
  lemma FirstStepLateAsWritten(habits: seq<Habit>, badges: seq<Badge>, id: string,
                               date: Option<string>, today: string, timestamp: string, k: nat, b: nat)
    requires FindHabit(habits, id) == Some(k) && habits[k].checkIns == []
    requires b < |badges| && badges[b].id == FirstStep && badges[b].earnedDate.None?
    ensures var r := CheckInHabitAsWritten(habits, badges, id, date, today, timestamp);
      |r.0[k].checkIns| == 1 && r.1[b] == badges[b]
  {
  }

  /** As written, the check-in that brings the streak to 7 does not earn Week Warrior: its
      progress becomes 6. */
  lemma WeekWarriorLateAsWritten(habits: seq<Habit>, badges: seq<Badge>, id: string,
                                 date: Option<string>, today: string, timestamp: string, k: nat, b: nat)
    requires FindHabit(habits, id) == Some(k) && habits[k].streak == 6
    requires b < |badges| && badges[b].id == WeekWarrior && badges[b].earnedDate.None?
    ensures var r := CheckInHabitAsWritten(habits, badges, id, date, today, timestamp);
      r.0[k].streak == 7 && r.1[b].earnedDate.None? && r.1[b].progress == Some(6)
  {
  }

  /** After a check-in, each badge is judged on the habit with that check-in. */
  lemma JudgedAfterCheckIn(habits: seq<Habit>, badges: seq<Badge>, id: string,
                           date: Option<string>, today: string, timestamp: string, k: nat, b: nat)
    requires FindHabit(habits, id) == Some(k) && b < |badges|
    ensures CheckInHabit(habits, badges, id, date, today, timestamp).1[b]
            == Award(badges[b], CheckedIn(habits[k], CheckDate(date, today), timestamp), today)
  {
    FindAfterCheckIn(habits, id, CheckDate(date, today), timestamp);
  }

  /** The first check-in of a habit earns First Step. */
  lemma FirstStepOnFirstCheckIn(habits: seq<Habit>, badges: seq<Badge>, id: string,
                                date: Option<string>, today: string, timestamp: string, k: nat, b: nat)
    requires FindHabit(habits, id) == Some(k) && habits[k].checkIns == []
    requires b < |badges| && badges[b].id == FirstStep && badges[b].earnedDate.None?
    ensures CheckInHabit(habits, badges, id, date, today, timestamp).1[b].earnedDate == Some(today)
  {
    JudgedAfterCheckIn(habits, badges, id, date, today, timestamp, k, b);
  }

  /** A streak badge is earned on the check-in that brings the streak to its target, and
      until then shows the streak the habit has after the check-in. */
  lemma StreakBadgeOnTarget(habits: seq<Habit>, badges: seq<Badge>, id: string,
                            date: Option<string>, today: string, timestamp: string, k: nat, b: nat)
    requires FindHabit(habits, id) == Some(k)
    requires b < |badges| && StreakTarget(badges[b].id).Some? && badges[b].earnedDate.None?
    ensures var r := CheckInHabit(habits, badges, id, date, today, timestamp);
      && (habits[k].streak + 1 >= StreakTarget(badges[b].id).value <==> r.1[b].earnedDate == Some(today))
      && (habits[k].streak + 1 < StreakTarget(badges[b].id).value ==>
            r.1[b].progress == Some(habits[k].streak + 1))
  {
    JudgedAfterCheckIn(habits, badges, id, date, today, timestamp, k, b);
    var h := CheckedIn(habits[k], CheckDate(date, today), timestamp);
    assert h.streak == habits[k].streak + 1;
  }

  // ---------------------------------------------------------------- habit duels

  datatype DuelStatus = Active | Completed | Cancelled

  datatype HabitDuel = HabitDuel(id: string, habitId: string, participants: seq<string>,
                                 startDate: string, endDate: string, status: DuelStatus,
                                 winner: Option<string>)

  function DuelId(d: HabitDuel): string { d.id }

  /** `createHabitDuel`: an active duel without a winner comes first; it starts today
      (`dateOf(now)`) and ends `duration` whole days later. */
  function CreateHabitDuel(duels: seq<HabitDuel>, id: string, habitId: string,
                           participants: seq<string>, duration: int, now: int, dateOf: int -> string)
    : (r: seq<HabitDuel>)
    ensures |r| == |duels| + 1 && r[1..] == duels
    ensures r[0].id == id && r[0].habitId == habitId && r[0].participants == participants
    ensures r[0].status == Active && r[0].winner.None?
    ensures r[0].startDate == dateOf(now) && r[0].endDate == dateOf(now + duration * Time.MsPerDay)
  {
    var d := HabitDuel(id, habitId, participants, dateOf(now),
                       dateOf(now + duration * Time.MsPerDay), Active, None);
    assert ClientLists.Prepend(d, duels)[1..] == duels;
    ClientLists.Prepend(d, duels)
  }

  datatype DuelPatch = DuelPatch(id: Option<string>, habitId: Option<string>,
                                 participants: Option<seq<string>>, startDate: Option<string>,
                                 endDate: Option<string>, status: Option<DuelStatus>,
                                 winner: Option<Option<string>>)

  function MergeDuel(d: HabitDuel, p: DuelPatch): HabitDuel {
    HabitDuel(Over(p.id, d.id), Over(p.habitId, d.habitId), Over(p.participants, d.participants),
              Over(p.startDate, d.startDate), Over(p.endDate, d.endDate),
              Over(p.status, d.status), Over(p.winner, d.winner))
  }

  /** `updateHabitDuel`: every duel with the id gets the update, the others stay. */
  function UpdateHabitDuel(duels: seq<HabitDuel>, id: string, p: DuelPatch): (r: seq<HabitDuel>)
    ensures |r| == |duels|
    ensures forall i :: 0 <= i < |duels| ==>
              r[i] == if duels[i].id == id then MergeDuel(duels[i], p) else duels[i]
    ensures p.id.None? ==> forall i :: 0 <= i < |duels| ==> r[i].id == duels[i].id
  {
    ClientLists.MapWhere(duels, DuelId, id, (d: HabitDuel) => MergeDuel(d, p))
  }

  // ---------------------------------------------------------------- roommates

  datatype Roommate = Roommate(id: string, name: string, email: string, avatar: string,
                               joinedDate: string, habits: int, points: int)

  datatype RoommateDraft = RoommateDraft(name: string, email: string, avatar: string,
                                         joinedDate: string, habits: int, points: int)

  datatype RoommatePatch = RoommatePatch(id: Option<string>, name: Option<string>,
                                         email: Option<string>, avatar: Option<string>,
                                         joinedDate: Option<string>, habits: Option<int>,
                                         points: Option<int>)

  function RoommateId(m: Roommate): string { m.id }

  function RoommateDraftOf(m: Roommate): RoommateDraft {
    RoommateDraft(m.name, m.email, m.avatar, m.joinedDate, m.habits, m.points)
  }

  /** `addRoommate`: the roommate comes first, with the given fields and the new id. */
  function AddRoommate(roommates: seq<Roommate>, draft: RoommateDraft, id: string): (r: seq<Roommate>)
    ensures |r| == |roommates| + 1 && r[1..] == roommates
    ensures r[0].id == id && RoommateDraftOf(r[0]) == draft
  {
    var m := Roommate(id, draft.name, draft.email, draft.avatar, draft.joinedDate, draft.habits,
                      draft.points);
    assert ClientLists.Prepend(m, roommates)[1..] == roommates;
    ClientLists.Prepend(m, roommates)
  }

  function MergeRoommate(m: Roommate, p: RoommatePatch): Roommate {
    Roommate(Over(p.id, m.id), Over(p.name, m.name), Over(p.email, m.email),
             Over(p.avatar, m.avatar), Over(p.joinedDate, m.joinedDate),
             Over(p.habits, m.habits), Over(p.points, m.points))
  }

  /** `updateRoommate`: every roommate with the id gets the update, the others stay. */
  function UpdateRoommate(roommates: seq<Roommate>, id: string, p: RoommatePatch): (r: seq<Roommate>)
    ensures |r| == |roommates|
    ensures forall i :: 0 <= i < |roommates| ==>
              r[i] == if roommates[i].id == id then MergeRoommate(roommates[i], p) else roommates[i]
  {
    ClientLists.MapWhere(roommates, RoommateId, id, (m: Roommate) => MergeRoommate(m, p))
  }

  /** `removeRoommate`: exactly the roommates with other ids remain. */
  function RemoveRoommate(roommates: seq<Roommate>, id: string): (r: seq<Roommate>)
    ensures forall m :: m in r <==> m in roommates && m.id != id
    ensures forall m :: multiset(r)[m] == if m.id != id then multiset(roommates)[m] else 0
  {
    ClientLists.RemoveWhere(roommates, RoommateId, id)
  }

  // ---------------------------------------------------------------- secrets

  datatype Secret = Secret(id: string, content: string, author: string, timestamp: string,
                           likes: int, comments: seq<string>, isAnonymous: bool)

  datatype SecretDraft = SecretDraft(content: string, author: string, timestamp: string,
                                     likes: int, comments: seq<string>, isAnonymous: bool)

  datatype SecretPatch = SecretPatch(id: Option<string>, content: Option<string>,
                                     author: Option<string>, timestamp: Option<string>,
                                     likes: Option<int>, comments: Option<seq<string>>,
                                     isAnonymous: Option<bool>)

  function SecretId(s: Secret): string { s.id }

  function SecretDraftOf(s: Secret): SecretDraft {
    SecretDraft(s.content, s.author, s.timestamp, s.likes, s.comments, s.isAnonymous)
  }

  /** `addSecret`: the secret comes first, with the given fields and the new id. */
  function AddSecret(secrets: seq<Secret>, draft: SecretDraft, id: string): (r: seq<Secret>)
    ensures |r| == |secrets| + 1 && r[1..] == secrets
    ensures r[0].id == id && SecretDraftOf(r[0]) == draft
  {
    var s := Secret(id, draft.content, draft.author, draft.timestamp, draft.likes, draft.comments,
                    draft.isAnonymous);
    assert ClientLists.Prepend(s, secrets)[1..] == secrets;
    ClientLists.Prepend(s, secrets)
  }

  function MergeSecret(s: Secret, p: SecretPatch): Secret {
    Secret(Over(p.id, s.id), Over(p.content, s.content), Over(p.author, s.author),
           Over(p.timestamp, s.timestamp), Over(p.likes, s.likes),
           Over(p.comments, s.comments), Over(p.isAnonymous, s.isAnonymous))
  }

  /** `updateSecret`: every secret with the id gets the update, the others stay. */
  function UpdateSecret(secrets: seq<Secret>, id: string, p: SecretPatch): (r: seq<Secret>)
    ensures |r| == |secrets|
    ensures forall i :: 0 <= i < |secrets| ==>
              r[i] == if secrets[i].id == id then MergeSecret(secrets[i], p) else secrets[i]
  {
    ClientLists.MapWhere(secrets, SecretId, id, (s: Secret) => MergeSecret(s, p))
  }

  /** `deleteSecret`: exactly the secrets with other ids remain. */
  function DeleteSecret(secrets: seq<Secret>, id: string): (r: seq<Secret>)
    ensures forall s :: s in r <==> s in secrets && s.id != id
    ensures forall s :: multiset(r)[s] == if s.id != id then multiset(secrets)[s] else 0
  {
    ClientLists.RemoveWhere(secrets, SecretId, id)
  }

  // ---------------------------------------------------------------- moods

  datatype Mood = Mood(id: string, rating: int, note: string, tags: seq<string>, date: string)

  datatype MoodDraft = MoodDraft(rating: int, note: string, tags: seq<string>, date: string)

  datatype MoodPatch = MoodPatch(id: Option<string>, rating: Option<int>, note: Option<string>,
                                 tags: Option<seq<string>>, date: Option<string>)

  function MoodId(m: Mood): string { m.id }

  function MoodDraftOf(m: Mood): MoodDraft {
    MoodDraft(m.rating, m.note, m.tags, m.date)
  }

  /** `addMood`: the mood comes first, with the given fields and the new id. */
  function AddMood(moods: seq<Mood>, draft: MoodDraft, id: string): (r: seq<Mood>)
    ensures |r| == |moods| + 1 && r[1..] == moods
    ensures r[0].id == id && MoodDraftOf(r[0]) == draft
  {
    var m := Mood(id, draft.rating, draft.note, draft.tags, draft.date);
    assert ClientLists.Prepend(m, moods)[1..] == moods;
    ClientLists.Prepend(m, moods)
  }

  function MergeMood(m: Mood, p: MoodPatch): Mood {
    Mood(Over(p.id, m.id), Over(p.rating, m.rating), Over(p.note, m.note),
         Over(p.tags, m.tags), Over(p.date, m.date))
  }

  /** `updateMood`: every mood with the id gets the update, the others stay. */
  function UpdateMood(moods: seq<Mood>, id: string, p: MoodPatch): (r: seq<Mood>)
    ensures |r| == |moods|
    ensures forall i :: 0 <= i < |moods| ==>
              r[i] == if moods[i].id == id then MergeMood(moods[i], p) else moods[i]
  {
    ClientLists.MapWhere(moods, MoodId, id, (m: Mood) => MergeMood(m, p))
  }

  /** `deleteMood`: exactly the moods with other ids remain. */
  function DeleteMood(moods: seq<Mood>, id: string): (r: seq<Mood>)
    ensures forall m :: m in r <==> m in moods && m.id != id
    ensures forall m :: multiset(r)[m] == if m.id != id then multiset(moods)[m] else 0
  {
    ClientLists.RemoveWhere(moods, MoodId, id)
  }

  // ---------------------------------------------------------------- round trips

  /** Deleting the habit just added under a fresh id gives back the habits before. */
  lemma AddThenDeleteHabit(habits: seq<Habit>, draft: HabitDraft, id: string, today: string)
    requires forall i :: 0 <= i < |habits| ==> habits[i].id != id
    ensures DeleteHabit(AddHabit(habits, draft, id, today), id) == habits
  {
    var r := AddHabit(habits, draft, id, today);
    assert r == ClientLists.Prepend(r[0], habits);
    ClientLists.AddThenRemove(r[0], habits, HabitId);
  }

  /** An update of a habit id nobody has changes nothing. */
  lemma UpdateAbsentHabit(habits: seq<Habit>, id: string, p: HabitPatch)
    requires forall i :: 0 <= i < |habits| ==> habits[i].id != id
    ensures UpdateHabit(habits, id, p) == habits
  {
    ClientLists.MapWhereAbsent(habits, HabitId, id, (h: Habit) => MergeHabit(h, p));
  }
}
