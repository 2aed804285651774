/**
 * The two MongoDB collections the service writes to ("students" and "users"),
 * as an in-memory store keyed by document id, together with the ObjectId
 * generator: every `new ObjectId()` takes the next value of a counter.
 */
module Store {
  import opened Wrappers
  import opened JsValues

  type ObjectId = nat

  /** One embedded subject of a student, `{_id, name}`. */
  datatype SubjectEntry = SubjectEntry(id: ObjectId, name: JsValue)

  /** `new Date(dateEnrolled)`: the Date the runtime builds from the request value, kept opaque. */
  datatype DateValue = DateFrom(input: JsValue)

  /** A stored student document, without its `_id` (the key it is stored under). */
  datatype Student = Student(name: JsValue, age: JsValue, subjects: seq<SubjectEntry>, dateEnrolled: DateValue)

  /** A stored user document, `{email, password}` where password is the hash. */
  datatype User = User(email: JsValue, password: string)

  /** What insertOne answers: `{acknowledged, insertedId}`. */
  datatype InsertOneResult = InsertOneResult(acknowledged: bool, insertedId: ObjectId)

  ghost predicate IdsBelow(entries: seq<SubjectEntry>, bound: ObjectId) {
    forall i :: 0 <= i < |entries| ==> entries[i].id < bound
  }

  /**
   * `id` is the user findOne({email}) returns: among the users whose stored
   * email the filter value `email` matches, the first in insertion order,
   * that is the least id. `matches(filter, field)` is how the store compares
   * a filter value with a document field (equality, an array element, an
   * operator object such as `{$ne: null}`, null for a missing value).
   */
  predicate IsEarliestMatch(users: map<ObjectId, User>, matches: (JsValue, JsValue) -> bool, email: JsValue, id: ObjectId) {
    && id in users
    && matches(email, users[id].email)
    && forall k :: k in users && matches(email, users[k].email) ==> id <= k
  }

  /** Whenever some user matches, one of them is the earliest. */
  lemma {:induction false} EarliestMatchExists(users: map<ObjectId, User>, matches: (JsValue, JsValue) -> bool, email: JsValue, id: ObjectId)
    requires id in users && matches(email, users[id].email)
    ensures exists e :: IsEarliestMatch(users, matches, email, e)
    decreases id
  {
    if !IsEarliestMatch(users, matches, email, id) {
      var k :| k in users && matches(email, users[k].email) && k < id;
      EarliestMatchExists(users, matches, email, k);
    }
  }

  /** The documents of `students` that the criteria `c` selects, `matches` being how the store evaluates it. */
  function Selected<C>(students: map<ObjectId, Student>, c: C, matches: (C, Student) -> bool): (found: map<ObjectId, Student>)
    ensures forall id :: id in found <==> id in students && matches(c, students[id])
    ensures forall id :: id in found ==> found[id] == students[id]
  {
    map id | id in students && matches(c, students[id]) :: students[id]
  }

  class Db {
    var students: map<ObjectId, Student>
    var users: map<ObjectId, User>
    /** The next ObjectId the generator hands out. */
    var nextId: ObjectId

    /** Every id in use (document keys and embedded subject ids) was handed out before nextId. */
    ghost predicate Valid()
      reads this
    {
      && (forall id :: id in students ==> id < nextId && IdsBelow(students[id].subjects, nextId))
      && (forall id :: id in users ==> id < nextId)
    }

    constructor ()
      ensures Valid()
      ensures students == map[] && users == map[] && nextId == 0
    {
      students, users, nextId := map[], map[], 0;
    }

    /** `count` calls of `new ObjectId()`; the ids are first, first + 1, ..., none of them in use. */
    method NewObjectIds(count: nat) returns (first: ObjectId)
      requires Valid()
      modifies this`nextId
      ensures Valid()
      ensures first == old(nextId) && nextId == first + count
    {
      first := nextId;
      nextId := nextId + count;
    }

    /** insertOne on "students": the driver assigns a fresh `_id`. */
    method InsertStudent(s: Student) returns (r: InsertOneResult)
      requires Valid() && IdsBelow(s.subjects, nextId)
      modifies this`students, this`nextId
      ensures Valid()
      ensures old(nextId) !in old(students)
      ensures students == old(students)[old(nextId) := s]
      ensures r == InsertOneResult(true, old(nextId))
      ensures users == old(users) && nextId == old(nextId) + 1
    {
      r := InsertOneResult(true, nextId);
      students := students[nextId := s];
      nextId := nextId + 1;
    }

    /** updateOne({_id: id}, {$set: s}): replaces every field of the matching document, if there is one. */
    method UpdateStudent(id: ObjectId, s: Student)
      requires Valid() && IdsBelow(s.subjects, nextId)
      modifies this`students
      ensures Valid()
      ensures students == if id in old(students) then old(students)[id := s] else old(students)
    {
      if id in students {
        students := students[id := s];
      }
    }

    /** deleteOne({_id: id}): removes the matching document, if there is one. */
    method DeleteStudent(id: ObjectId)
      requires Valid()
      modifies this`students
      ensures Valid()
      ensures students == old(students) - {id}
      ensures forall k :: k in old(students) && k != id ==> k in students && students[k] == old(students)[k]
      ensures |students| == if id in old(students) then |old(students)| - 1 else |old(students)|
    {
      students := students - {id};
    }

    /** find(criteria) on "students"; `matches` is how the store evaluates a criteria document. */
    method FindStudents<C>(criteria: C, matches: (C, Student) -> bool) returns (found: map<ObjectId, Student>)
      ensures found == Selected(students, criteria, matches)
    {
      found := Selected(students, criteria, matches);
    }

    /** insertOne on "users". */
    method InsertUser(u: User) returns (r: InsertOneResult)
      requires Valid()
      modifies this`users, this`nextId
      ensures Valid()
      ensures old(nextId) !in old(users)
      ensures users == old(users)[old(nextId) := u]
      ensures r == InsertOneResult(true, old(nextId))
      ensures students == old(students) && nextId == old(nextId) + 1
    {
      r := InsertOneResult(true, nextId);
      users := users[nextId := u];
      nextId := nextId + 1;
    }

    /** findOne({email}) on "users"; `matches` is how the store compares the filter value with a stored email. */
    method FindUserByEmail(email: JsValue, matches: (JsValue, JsValue) -> bool) returns (found: Option<ObjectId>)
      ensures found.Some? ==> IsEarliestMatch(users, matches, email, found.value)
      ensures found.None? <==> forall id :: id in users ==> !matches(email, users[id].email)
    {
      if exists id :: id in users && matches(email, users[id].email) {
        var some :| some in users && matches(email, users[some].email);
        EarliestMatchExists(users, matches, email, some);
        var e :| e in users && IsEarliestMatch(users, matches, email, e);
        found := Some(e);
      } else {
        found := None;
      }
    }
  }
}
