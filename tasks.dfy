/**
  The task router: tasks scoped to their owner, and the parsing of the list query string.
  Every lookup names both the task id and the principal as owner, so a task that belongs to
  someone else answers exactly like a missing one.
 */
module Tasks {
  import opened Http

  type TaskId = ObjectId

  /** The fields `PATCH /tasks/:id` may change. */
  const AllowedUpdates: seq<string> := ["description", "completed"]

  /** A task document. Field values are kept as the request supplied them; `owner` is a `Ref`. */
  datatype Task = Task(description: Value, completed: Value, owner: Value)

  /** What the task router sends as a document. */
  datatype TaskData = One(id: TaskId, task: Task) | Many(tasks: map<TaskId, Task>)

  /** `{ ...req.body, owner: req.user._id }`: the body's fields first, then the owner. */
  function Document(body: Body, principal: ObjectId): (document: Body)
    ensures Keys(document) == Keys(body) + ["owner"]
  {
    body + [Field("owner", Ref(principal))]
  }

  /** `new Task(document)`; a document without `completed` gets `false`. */
  function NewTask(document: Body): (task: Task)
    ensures Lookup(document, "description").Some? ==> task.description == Lookup(document, "description").value
    ensures Lookup(document, "owner").Some? ==> task.owner == Lookup(document, "owner").value
    ensures Lookup(document, "completed").Some? ==> task.completed == Lookup(document, "completed").value
    ensures "completed" !in Keys(document) ==> task.completed == Bool(false)
  {
    Task(LookupOr(document, "description", Null),
         LookupOr(document, "completed", Bool(false)),
         LookupOr(document, "owner", Null))
  }

  /**
    A created task belongs to the principal whatever the body says about `owner`; its other
    fields are the body's.
   */
  lemma CreatedTask(body: Body, principal: ObjectId)
    ensures NewTask(Document(body, principal)).owner == Ref(principal)
    ensures NewTask(Document(body, principal)).description == LookupOr(body, "description", Null)
    ensures NewTask(Document(body, principal)).completed == LookupOr(body, "completed", Bool(false))
  {
    var f := Field("owner", Ref(principal));
    LookupAppend(body, f, "owner");
    LookupAppend(body, f, "description");
    LookupAppend(body, f, "completed");
  }

  /** A body without `completed` creates an incomplete task. */
  lemma CreatedTaskIncomplete(body: Body, principal: ObjectId)
    requires "completed" !in Keys(body)
    ensures NewTask(Document(body, principal)).completed == Bool(false)
  {
  }

  predicate OwnedBy(task: Task, principal: ObjectId) {
    task.owner == Ref(principal)
  }

  /** The `completed` equality of a populate `match`; no filter matches every task. */
  predicate Matches(task: Task, filter: Option<bool>) {
    filter.None? || task.completed == Bool(filter.value)
  }

  /** `Task.findOne({ _id, owner })` */
  function FindOwned(tasks: map<TaskId, Task>, principal: ObjectId, id: TaskId): (found: Option<Task>)
    ensures found.Some? <==> id in tasks && OwnedBy(tasks[id], principal)
    ensures found.Some? ==> found.value == tasks[id]
  {
    if id in tasks && OwnedBy(tasks[id], principal) then Some(tasks[id]) else None
  }

  /** A task owned by someone else is found exactly as often as one that does not exist. */
  lemma ForeignLooksMissing(tasks: map<TaskId, Task>, principal: ObjectId, id: TaskId)
    requires id in tasks && !OwnedBy(tasks[id], principal)
    ensures FindOwned(tasks, principal, id) == FindOwned(tasks - {id}, principal, id) == None
  {
  }

  /** The principal's tasks that pass the filter: what populating `tasks` with `match` yields. */
  function Listing(tasks: map<TaskId, Task>, principal: ObjectId, filter: Option<bool>): (listed: map<TaskId, Task>)
    ensures forall id :: id in listed <==> id in tasks && OwnedBy(tasks[id], principal) && Matches(tasks[id], filter)
    ensures forall id :: id in listed ==> listed[id] == tasks[id]
  {
    map id | id in tasks && OwnedBy(tasks[id], principal) && Matches(tasks[id], filter) :: tasks[id]
  }

  /** Adding a task changes the listing of its owner (when it passes the filter) and of no one else. */
  lemma ListingAfterInsert(tasks: map<TaskId, Task>, id: TaskId, task: Task, principal: ObjectId, filter: Option<bool>)
    requires id !in tasks
    ensures Listing(tasks[id := task], principal, filter) ==
            if OwnedBy(task, principal) && Matches(task, filter) then Listing(tasks, principal, filter)[id := task]
            else Listing(tasks, principal, filter)
  {
  }

  /** Changing or removing one task leaves the listing of every principal who does not own it alone. */
  lemma ListingIsolated(tasks: map<TaskId, Task>, id: TaskId, task: Task, principal: ObjectId, filter: Option<bool>)
    requires id in tasks && !OwnedBy(tasks[id], principal) && task.owner == tasks[id].owner
    ensures Listing(tasks[id := task], principal, filter) == Listing(tasks, principal, filter)
    ensures Listing(tasks - {id}, principal, filter) == Listing(tasks, principal, filter)
  {
  }

  /** `task[update] = req.body[update]` for each update: the supplied fields take the body's values. */
  function Patched(task: Task, body: Body): (patched: Task)
    ensures patched.owner == task.owner
    ensures Lookup(body, "description").Some? ==> patched.description == Lookup(body, "description").value
    ensures "description" !in Keys(body) ==> patched.description == task.description
    ensures Lookup(body, "completed").Some? ==> patched.completed == Lookup(body, "completed").value
    ensures "completed" !in Keys(body) ==> patched.completed == task.completed
  {
    task.(description := LookupOr(body, "description", task.description),
          completed := LookupOr(body, "completed", task.completed))
  }

  /** An update keeps the owner, and a body that supplies nothing changes nothing. */
  lemma PatchedKeepsOwner(task: Task, body: Body)
    ensures Patched(task, body).owner == task.owner
    ensures Keys(body) == [] ==> Patched(task, body) == task
  {
  }

  // ---------------------------------------------------------------------------------------
  // The list query string

  /** The query values `GET /tasks` reads; `None` is an absent parameter. */
  datatype Query = Query(completed: Option<string>, sort: Option<string>, limit: Option<string>, skip: Option<string>)

  /** A single-field sort: `order` is -1 for descending and 1 for ascending. */
  datatype SortKey = SortKey(field: string, order: int)

  /** The `match` and `options` handed to `populate`; `None` stands for an empty object or `NaN`. */
  datatype PopulateOptions = PopulateOptions(filter: Option<bool>, limit: Option<int>, skip: Option<int>, sort: Option<SortKey>)

  /** JavaScript truthiness of a query value: absent and empty are false. */
  predicate Truthy(q: Option<string>) {
    q.Some? && q.value != ""
  }

  /** `if (completed) match.completed = completed === 'true'` */
  function CompletedFilter(completed: Option<string>): (filter: Option<bool>)
    ensures filter.None? <==> !Truthy(completed)
    ensures filter.Some? ==> (filter.value <==> completed.value == "true")
  {
    if Truthy(completed) then Some(completed.value == "true") else None
  }

  /**
    With `completed=true` the listing is exactly the principal's completed tasks; with any
    other non-empty value ("false", "yes", ...) exactly the incomplete ones; without it, all.
   */
  lemma CompletedFilterSelects(tasks: map<TaskId, Task>, principal: ObjectId, completed: Option<string>, id: TaskId)
    ensures id in Listing(tasks, principal, CompletedFilter(completed)) <==>
            && id in tasks && OwnedBy(tasks[id], principal)
            && (Truthy(completed) ==> tasks[id].completed == Bool(completed.value == "true"))
  {
  }

  /** `s.split(sep)` for a one-character separator. */
  function Split(s: string, sep: char): (parts: seq<string>)
    ensures |parts| >= 1
    ensures forall i :: 0 <= i < |parts| ==> sep !in parts[i]
  {
    if s == [] then [""]
    else
      var rest := Split(s[1..], sep);
      if s[0] == sep then [""] + rest
      else [[s[0]] + rest[0]] + rest[1..]
  }

  /** `parts.join(sep)`, the inverse of splitting. */
  function Join(parts: seq<string>, sep: char): string
    requires |parts| >= 1
  {
    if |parts| == 1 then parts[0] else parts[0] + [sep] + Join(parts[1..], sep)
  }

  /** Joining the parts of a split gives back the string. */
  lemma {:induction false} JoinSplit(s: string, sep: char)
    ensures Join(Split(s, sep), sep) == s
  {
    if s != [] {
      var rest := Split(s[1..], sep);
      JoinSplit(s[1..], sep);
      if s[0] == sep {
        assert Split(s, sep) == [""] + rest;
        assert ([""] + rest)[1..] == rest;
      } else {
        var parts := Split(s, sep);
        assert parts == [[s[0]] + rest[0]] + rest[1..];
        if |rest| == 1 {
          assert Join(parts, sep) == [s[0]] + rest[0];
        } else {
          assert parts[1..] == rest[1..];
          assert Join(rest, sep) == rest[0] + [sep] + Join(rest[1..], sep);
        }
      }
      assert s == [s[0]] + s[1..];
    }
  }

  /** A piece without the separator is left whole by splitting. */
  lemma {:induction false} SplitPlain(p: string, sep: char)
    requires sep !in p
    ensures Split(p, sep) == [p]
  {
    if p != [] {
      SplitPlain(p[1..], sep);
      assert [p[0]] + p[1..] == p;
    }
  }

  /** The separator after a piece without it ends the first part. */
  lemma {:induction false} SplitAt(p: string, sep: char, r: string)
    requires sep !in p
    ensures Split(p + [sep] + r, sep) == [p] + Split(r, sep)
  {
    var s := p + [sep] + r;
    if p == [] {
      assert s == [sep] + r;
      assert s[1..] == r;
    } else {
      assert s[0] == p[0];
      assert s[1..] == p[1..] + [sep] + r;
      SplitAt(p[1..], sep, r);
      assert [p[0]] + p[1..] == p;
    }
  }

  /** Splitting a join of separator-free parts gives back the parts. */
  lemma {:induction false} SplitJoin(parts: seq<string>, sep: char)
    requires |parts| >= 1
    requires forall i :: 0 <= i < |parts| ==> sep !in parts[i]
    ensures Split(Join(parts, sep), sep) == parts
  {
    if |parts| == 1 {
      SplitPlain(parts[0], sep);
    } else {
      SplitJoin(parts[1..], sep);
      SplitAt(parts[0], sep, Join(parts[1..], sep));
      assert [parts[0]] + parts[1..] == parts;
    }
  }

  /** `if (sort) { parts = sort.split(':'); sort[parts[0]] = parts[1] === 'desc' ? -1 : 1 }` */
  function SortFrom(sort: Option<string>): (key: Option<SortKey>)
    ensures key.None? <==> !Truthy(sort)
    ensures key.Some? ==> key.value.order == 1 || key.value.order == -1
    ensures key.Some? ==> ':' !in key.value.field
  {
    if Truthy(sort) then
      var parts := Split(sort.value, ':');
      Some(SortKey(parts[0], if |parts| > 1 && parts[1] == "desc" then -1 else 1))
    else None
  }

  /** `field:dir` sorts on `field`, descending exactly when `dir` is `desc`. */
  lemma SortFieldDirection(field: string, dir: string)
    requires ':' !in field && ':' !in dir
    ensures SortFrom(Some(field + ":" + dir)) == Some(SortKey(field, if dir == "desc" then -1 else 1))
  {
    assert Join([field, dir], ':') == field + ":" + dir by {
      assert [field, dir][1..] == [dir];
    }
    SplitJoin([field, dir], ':');
  }

  /** A sort value without a colon sorts ascending on the whole value. */
  lemma SortFieldOnly(field: string)
    requires field != "" && ':' !in field
    ensures SortFrom(Some(field)) == Some(SortKey(field, 1))
  {
    SplitPlain(field, ':');
  }

  /** The characters `parseInt` skips before the number: white space and line terminators. */
  predicate IsSpace(c: char) {
    || c == '\t' || c == '\n' || c == '\U{000B}' || c == '\U{000C}' || c == '\r' || c == ' '
    || c == '\U{00A0}' || c == '\U{1680}' || ('\U{2000}' <= c <= '\U{200A}')
    || c == '\U{2028}' || c == '\U{2029}' || c == '\U{202F}' || c == '\U{205F}'
    || c == '\U{3000}' || c == '\U{FEFF}'
  }

  /** The string without its leading white space. */
  function TrimStart(s: string): (t: string)
    ensures |t| <= |s| && t == s[|s| - |t|..]
    ensures t == [] || !IsSpace(t[0])
  {
    if s != [] && IsSpace(s[0]) then TrimStart(s[1..]) else s
  }

  /** Only white space is skipped. */
  lemma {:induction false} TrimStartSkipsSpace(s: string)
    ensures forall i :: 0 <= i < |s| - |TrimStart(s)| ==> IsSpace(s[i])
  {
    if s != [] && IsSpace(s[0]) {
      TrimStartSkipsSpace(s[1..]);
      assert forall i :: 1 <= i < |s| - |TrimStart(s)| ==> s[i] == s[1..][i - 1];
    }
  }

  predicate IsDigit(c: char) {
    '0' <= c <= '9'
  }

  /** The value of a digit in any radix up to 36 (letters count from 10); 36 for any other character. */
  function DigitValue(c: char): (d: nat)
    ensures d <= 36
    ensures d < 10 <==> IsDigit(c)
  {
    if '0' <= c <= '9' then c as int - '0' as int
    else if 'a' <= c <= 'z' then c as int - 'a' as int + 10
    else if 'A' <= c <= 'Z' then c as int - 'A' as int + 10
    else 36
  }

  predicate IsRadixDigit(c: char, radix: nat) {
    DigitValue(c) < radix
  }

  function DigitChar(d: nat): char
    requires d < 10
  {
    ['0', '1', '2', '3', '4', '5', '6', '7', '8', '9'][d]
  }

  /** The longest prefix of digits in the radix. */
  function LeadingDigits(s: string, radix: nat): (ds: string)
    ensures |ds| <= |s| && ds == s[..|ds|]
    ensures forall i :: 0 <= i < |ds| ==> IsRadixDigit(ds[i], radix)
    ensures |ds| < |s| ==> !IsRadixDigit(s[|ds|], radix)
  {
    if s != [] && IsRadixDigit(s[0], radix) then [s[0]] + LeadingDigits(s[1..], radix) else []
  }

  /** A digit string's value moved one place to the left. */
  function Shift(value: nat, radix: nat): nat {
    value * radix
  }

  /** The number a string of digits denotes in the radix. */
  function DigitsValue(ds: string, radix: nat): nat
    requires forall i :: 0 <= i < |ds| ==> IsRadixDigit(ds[i], radix)
  {
    if ds == [] then 0 else Shift(DigitsValue(ds[..|ds| - 1], radix), radix) + DigitValue(ds[|ds| - 1])
  }

  /** The decimal numeral of a natural number, without leading zeros. */
  function Decimal(n: nat): (ds: string)
    ensures ds != [] && forall i :: 0 <= i < |ds| ==> IsDigit(ds[i])
    ensures ds[0] == '0' ==> n == 0
  {
    if n < 10 then [DigitChar(n)] else Decimal(n / 10) + [DigitChar(n % 10)]
  }

  /** `0x` or `0X` at the start: the digits that follow are hexadecimal. */
  predicate HexPrefixed(u: string) {
    |u| >= 2 && u[0] == '0' && (u[1] == 'x' || u[1] == 'X')
  }

  /** The digits after the sign, in radix 16 after a hexadecimal prefix and in radix 10 otherwise. */
  function ParseUnsigned(u: string): Option<nat> {
    var ds := if HexPrefixed(u) then LeadingDigits(u[2..], 16) else LeadingDigits(u, 10);
    if ds == [] then None else Some(DigitsValue(ds, if HexPrefixed(u) then 16 else 10))
  }

  /** After the white space: an optional sign, then the unsigned number. */
  function ParseSigned(str: string): Option<int> {
    var negative := str != [] && str[0] == '-';
    var unsigned := if str != [] && (str[0] == '-' || str[0] == '+') then str[1..] else str;
    match ParseUnsigned(unsigned)
    case None => None
    case Some(m) => Some(if negative then -(m as int) else m)
  }

  /**
    `parseInt(s)` with no radix: leading white space is skipped, then an optional sign; a
    `0x` or `0X` prefix selects radix 16, otherwise the radix is 10; then as many digits of
    that radix as follow. No digit at all (and an absent value) gives `NaN`, here `None`.
   */
  function ParseInt(s: Option<string>): (n: Option<int>)
    ensures s.None? ==> n.None?
  {
    if s.None? then None else ParseSigned(TrimStart(s.value))
  }

  /** Without white space or a sign in front, `parseInt` reads the unsigned number. */
  lemma ParseIntUnsigned(u: string)
    requires u == [] || (!IsSpace(u[0]) && u[0] != '-' && u[0] != '+')
    ensures ParseInt(Some(u)) == if ParseUnsigned(u).None? then None else Some(ParseUnsigned(u).value)
  {
    assert TrimStart(u) == u;
  }

  /** After a sign, `parseInt` reads the unsigned number and negates it for `-`. */
  lemma ParseIntSigned(sign: char, u: string)
    requires sign == '-' || sign == '+'
    ensures ParseInt(Some([sign] + u)) ==
            if ParseUnsigned(u).None? then None
            else Some(if sign == '-' then -(ParseUnsigned(u).value as int) else ParseUnsigned(u).value)
  {
    var str := [sign] + u;
    assert TrimStart(str) == str;
    assert ParseSigned(str) ==
           if ParseUnsigned(u).None? then None
           else Some(if sign == '-' then -(ParseUnsigned(u).value as int) else ParseUnsigned(u).value)
    by {
      assert str[1..] == u;
    }
  }

  lemma {:induction false} DecimalValue(n: nat)
    ensures DigitsValue(Decimal(n), 10) == n
  {
    if n >= 10 {
      DecimalValue(n / 10);
      var ds := Decimal(n);
      assert ds[..|ds| - 1] == Decimal(n / 10);
    }
  }

  lemma {:induction false} LeadingDigitsOf(ds: string, rest: string)
    requires forall i :: 0 <= i < |ds| ==> IsDigit(ds[i])
    requires rest == [] || !IsDigit(rest[0])
    ensures LeadingDigits(ds + rest, 10) == ds
  {
    if ds != [] {
      assert (ds + rest)[1..] == ds[1..] + rest;
      LeadingDigitsOf(ds[1..], rest);
      assert [ds[0]] + ds[1..] == ds;
    } else {
      assert ds + rest == rest;
    }
  }

  /**
    A numeral followed by anything that does not start with a digit parses to its number,
    negated after a minus sign: `limit=10` and `limit=10abc` both give 10. (A lone `0`
    followed by `x` or `X` is a hexadecimal prefix instead; see `ParseIntHex`.)
   */
  lemma ParseIntNumeral(n: nat, rest: string)
    requires rest == [] || !IsDigit(rest[0])
    requires n == 0 ==> rest == [] || (rest[0] != 'x' && rest[0] != 'X')
    ensures ParseInt(Some(Decimal(n) + rest)) == Some(n)
  {
    var u := Decimal(n) + rest;
    UnsignedNumeral(n, rest);
    assert IsDigit(u[0]);
    ParseIntUnsigned(u);
  }

  /** After a minus sign the numeral parses to its negation: `skip=-5` gives -5. */
  lemma ParseIntNegativeNumeral(n: nat, rest: string)
    requires rest == [] || !IsDigit(rest[0])
    requires n == 0 ==> rest == [] || (rest[0] != 'x' && rest[0] != 'X')
    ensures ParseInt(Some(['-'] + (Decimal(n) + rest))) == Some(-(n as int))
  {
    UnsignedNumeral(n, rest);
    ParseIntSigned('-', Decimal(n) + rest);
  }

  /** The unsigned part: a numeral is not a hexadecimal prefix and its digits stop where it does. */
  lemma UnsignedNumeral(n: nat, rest: string)
    requires rest == [] || !IsDigit(rest[0])
    requires n == 0 ==> rest == [] || (rest[0] != 'x' && rest[0] != 'X')
    ensures ParseUnsigned(Decimal(n) + rest) == Some(n)
  {
    var ds := Decimal(n);
    var u := ds + rest;
    DecimalValue(n);
    LeadingDigitsOf(ds, rest);
    assert !HexPrefixed(u) by {
      assert u[0] == ds[0];
      if |u| >= 2 && u[0] == '0' {
        assert |ds| == 1;
        assert u[1] == rest[0];
      }
    }
  }

  /** White space before the number is skipped: `limit=%2010` gives 10 like `limit=10`. */
  lemma ParseIntLeadingSpace(c: char, s: string)
    requires IsSpace(c)
    ensures ParseInt(Some([c] + s)) == ParseInt(Some(s))
  {
    assert ([c] + s)[1..] == s;
  }

  /** With no radix, a `0x` prefix (after an optional sign) reads the digits as hexadecimal. */
  lemma ParseIntHex()
    ensures ParseInt(Some("0x1A")) == Some(26) && ParseInt(Some("0X1a")) == Some(26)
    ensures ParseInt(Some(['-'] + "0x10")) == Some(-16)
  {
    HexValue("0x1A", "1A", 26);
    HexValue("0X1a", "1a", 26);
    assert ParseUnsigned("0x10") == Some(16) by { HexValue("0x10", "10", 16); }
    ParseIntSigned('-', "0x10");
  }

  /** A hexadecimal prefix with no hexadecimal digit after it gives `NaN`: `0x` and `0xg` both do. */
  lemma ParseIntHexWithoutDigits(u: string)
    requires HexPrefixed(u) && (|u| == 2 || !IsRadixDigit(u[2], 16))
    ensures ParseInt(Some(u)) == None
  {
    assert LeadingDigits(u[2..], 16) == [];
    ParseIntUnsigned(u);
  }

  /** A prefixed two-digit hexadecimal numeral with no sign and no white space. */
  lemma HexValue(u: string, ds: string, value: nat)
    requires |u| == 4 && u[0] == '0' && (u[1] == 'x' || u[1] == 'X') && u[2..] == ds
    requires IsRadixDigit(ds[0], 16) && IsRadixDigit(ds[1], 16)
    requires value == DigitValue(ds[0]) * 16 + DigitValue(ds[1])
    ensures ParseUnsigned(u) == Some(value)
    ensures ParseInt(Some(u)) == Some(value)
  {
    assert |ds| == 2;
    assert LeadingDigits(ds[1..], 16) == ds[1..] by { assert ds[1..][1..] == []; }
    assert LeadingDigits(ds, 16) == ds;
    assert DigitsValue(ds[..1], 16) == DigitValue(ds[0]) by {
      assert ds[..1][..0] == [] && ds[..1][0] == ds[0];
    }
    assert DigitsValue(ds, 16) == value;
    assert HexPrefixed(u);
    ParseIntUnsigned(u);
  }

  /** A value that does not begin with white space, a digit or a sign gives `NaN`. */
  lemma ParseIntNoDigits(s: string)
    requires s == [] || (!IsSpace(s[0]) && !IsDigit(s[0]) && s[0] != '-' && s[0] != '+')
    ensures ParseInt(Some(s)) == None
  {
    assert !HexPrefixed(s);
    assert LeadingDigits(s, 10) == [];
    ParseIntUnsigned(s);
  }

  /** The options `GET /tasks` hands to `populate`, as functions of the query string. */
  function Options(query: Query): PopulateOptions {
    PopulateOptions(CompletedFilter(query.completed), ParseInt(query.limit), ParseInt(query.skip), SortFrom(query.sort))
  }

  /**
    A query string read end to end: `?completed=c&sort=field:dir&limit=n&skip=m` filters as
    `c` says, sorts on `field` (descending exactly for `desc`) and pages by the two numbers;
    an empty query string asks for nothing.
   */
  lemma OptionsOfQuery(completed: Option<string>, field: string, dir: string, limit: nat, skip: nat)
    requires ':' !in field && ':' !in dir
    ensures Options(Query(completed, Some(field + ":" + dir), Some(Decimal(limit)), Some(Decimal(skip)))) ==
            PopulateOptions(CompletedFilter(completed), Some(limit), Some(skip),
                            Some(SortKey(field, if dir == "desc" then -1 else 1)))
    ensures Options(Query(None, None, None, None)) == PopulateOptions(None, None, None, None)
  {
    SortFieldDirection(field, dir);
    ParseIntNumeral(limit, []);
    ParseIntNumeral(skip, []);
    assert Decimal(limit) + [] == Decimal(limit);
    assert Decimal(skip) + [] == Decimal(skip);
  }

  // ---------------------------------------------------------------------------------------
  // The store

  /** The task collection: documents by id; `nextId` is the id the next new document gets. */
  class TaskStore {
    var tasks: map<TaskId, Task>
    var nextId: TaskId

    ghost predicate Valid()
      reads this
    {
      forall id :: id in tasks ==> id < nextId
    }

    constructor ()
      ensures Valid() && tasks == map[]
    {
      tasks := map[];
      nextId := 0;
    }

    /**
      `POST /tasks`: the task is owned by the principal, whatever the body says. When the
      store refuses the document (`saved` false), the collection is unchanged and the reply 400.
     */
    method Create(principal: ObjectId, body: Body, saved: bool) returns (reply: Reply<TaskData>)
      requires Valid()
      modifies this
      ensures Valid()
      ensures old(nextId) !in old(tasks)
      ensures saved ==> var task := NewTask(Document(body, principal));
                        tasks == old(tasks)[old(nextId) := task] &&
                        OwnedBy(task, principal) &&
                        reply == Reply(201, Data(One(old(nextId), task)))
      ensures !saved ==> tasks == old(tasks) && reply == Reply(400, StoreError)
    {
      var id := nextId;
      nextId := nextId + 1;
      var task := NewTask(Document(body, principal));
      CreatedTask(body, principal);
      if !saved {
        return Reply(400, StoreError);
      }
      tasks := tasks[id := task];
      reply := Reply(201, Data(One(id, task)));
    }

    /**
      `GET /tasks`: the query string becomes the populate options, and the reply lists the
      principal's tasks that pass the `completed` filter.
     */
    method List(principal: ObjectId, query: Query) returns (options: PopulateOptions, reply: Reply<TaskData>)
      ensures options == Options(query)
      ensures reply == Reply(200, Data(Many(Listing(tasks, principal, options.filter))))
    {
      var filter: Option<bool> := None;
      var sort: Option<SortKey> := None;
      if Truthy(query.completed) {
        filter := Some(query.completed.value == "true");
      }
      if Truthy(query.sort) {
        var parts := Split(query.sort.value, ':');
        sort := Some(SortKey(parts[0], if |parts| > 1 && parts[1] == "desc" then -1 else 1));
      }
      options := PopulateOptions(filter, ParseInt(query.limit), ParseInt(query.skip), sort);
      reply := Reply(200, Data(Many(Listing(tasks, principal, filter))));
    }

    /** `GET /tasks/:id`: 200 with the task when the principal owns it, 404 otherwise. */
    method GetOne(principal: ObjectId, id: TaskId) returns (reply: Reply<TaskData>)
      ensures id in tasks && OwnedBy(tasks[id], principal) ==> reply == Reply(200, Data(One(id, tasks[id])))
      ensures !(id in tasks && OwnedBy(tasks[id], principal)) ==> reply == Reply(404, Empty)
    {
      var found := FindOwned(tasks, principal, id);
      if found.None? {
        return Reply(404, Empty);
      }
      reply := Reply(200, Data(One(id, found.value)));
    }

    /**
      `PATCH /tasks/:id`: a body naming a field outside the allow-list is refused before any
      lookup; a task the principal does not own is 404; otherwise only that task changes,
      and only in the supplied fields.
     */
    method Update(principal: ObjectId, id: TaskId, body: Body, saved: bool) returns (reply: Reply<TaskData>)
      requires Valid()
      modifies this`tasks
      ensures Valid()
      ensures !AllAllowed(Keys(body), AllowedUpdates) ==>
                reply == Reply(400, Error(InvalidUpdate)) && tasks == old(tasks)
      ensures AllAllowed(Keys(body), AllowedUpdates) && FindOwned(old(tasks), principal, id).None? ==>
                reply == Reply(404, Empty) && tasks == old(tasks)
      ensures AllAllowed(Keys(body), AllowedUpdates) && FindOwned(old(tasks), principal, id).Some? ==>
                var task := Patched(old(tasks)[id], body);
                if saved then tasks == old(tasks)[id := task] && reply == Reply(200, Data(One(id, task)))
                else tasks == old(tasks) && reply == Reply(400, Empty)
    {
      var updates := Keys(body);
      if !AllAllowed(updates, AllowedUpdates) {
        return Reply(400, Error(InvalidUpdate));
      }
      var found := FindOwned(tasks, principal, id);
      if found.None? {
        return Reply(404, Empty);
      }
      var task := found.value;
      for i := 0 to |updates|
        invariant tasks == old(tasks)
        invariant task.owner == found.value.owner
        invariant task.description == Assigned(body, updates[..i], "description", found.value.description)
        invariant task.completed == Assigned(body, updates[..i], "completed", found.value.completed)
      {
        var update := updates[i];
        AssignedStep(body, updates, i, found.value.description, "description");
        AssignedStep(body, updates, i, found.value.completed, "completed");
        var value := LookupOr(body, update, Null);
        if update == "description" {
          task := task.(description := value);
        } else {
          task := task.(completed := value);
        }
      }
      AssignedAll(body, found.value.description, "description");
      AssignedAll(body, found.value.completed, "completed");
      assert task == Patched(found.value, body);
      if !saved {
        return Reply(400, Empty);
      }
      tasks := tasks[id := task];
      reply := Reply(200, Data(One(id, task)));
    }

    /** `DELETE /tasks/:id`: removes the task only when the principal owns it; 404 otherwise. */
    method Delete(principal: ObjectId, id: TaskId) returns (reply: Reply<TaskData>)
      requires Valid()
      modifies this`tasks
      ensures Valid()
      ensures id in old(tasks) && OwnedBy(old(tasks)[id], principal) ==>
                tasks == old(tasks) - {id} && reply == Reply(200, Data(One(id, old(tasks)[id])))
      ensures !(id in old(tasks) && OwnedBy(old(tasks)[id], principal)) ==>
                tasks == old(tasks) && reply == Reply(404, Empty)
    {
      var found := FindOwned(tasks, principal, id);
      if found.None? {
        return Reply(404, Empty);
      }
      tasks := tasks - {id};
      reply := Reply(200, Data(One(id, found.value)));
    }
  }

  // ---------------------------------------------------------------------------------------
  // The test fixtures

  /** The fixture collection: two tasks of user one (one of them completed) and one of user two. */
  function FixtureTasks(userOne: ObjectId, userTwo: ObjectId): map<TaskId, Task> {
    map[0 := Task(Str("Study Node.js"), Bool(false), Ref(userOne)),
        1 := Task(Str("Drink coffe"), Bool(true), Ref(userOne)),
        2 := Task(Str("Sleep a bit"), Bool(true), Ref(userTwo))]
  }

  /**
    User one lists exactly their two tasks, one of them with `completed=true`; user two
    cannot see user one's first task.
   */
  lemma FixtureListing(userOne: ObjectId, userTwo: ObjectId)
    requires userOne != userTwo
    ensures Listing(FixtureTasks(userOne, userTwo), userOne, None).Keys == {0, 1}
    ensures |Listing(FixtureTasks(userOne, userTwo), userOne, None)| == 2
    ensures Listing(FixtureTasks(userOne, userTwo), userOne, CompletedFilter(Some("true"))).Keys == {1}
    ensures FindOwned(FixtureTasks(userOne, userTwo), userTwo, 0) == None
  {
  }

  /**
    A task created by user one with only a description is incomplete; user two's attempt to
    delete it is 404 and leaves it where user one still finds it.
   */
  method StrangerDeleteScenario(userOne: ObjectId, userTwo: ObjectId) returns (deleted: Reply<TaskData>, fetched: Reply<TaskData>)
    requires userOne != userTwo
    ensures deleted == Reply(404, Empty)
    ensures fetched.status == 200 && fetched.payload.Data? && fetched.payload.data.One?
    ensures fetched.payload.data.task.completed == Bool(false)
  {
    var store := new TaskStore();
    var body := [Field("description", Str("Finish tests"))];
    var created := store.Create(userOne, body, true);
    var id := created.payload.data.id;
    CreatedTaskIncomplete(body, userOne);
    assert store.tasks[id].completed == Bool(false);
    deleted := store.Delete(userTwo, id);
    fetched := store.GetOne(userOne, id);
  }
}
