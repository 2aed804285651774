/**
 * The /students routes: the payload check shared by POST and PUT, the
 * construction of a student document, the list filter of GET, and the four
 * handlers over the "students" collection.
 */
module Students {
  import opened Wrappers
  import opened JsValues
  import opened Store
  import opened Http

  /** The fields read from req.body by POST and PUT. */
  datatype StudentBody = StudentBody(name: JsValue, age: JsValue, subjects: JsValue, dateEnrolled: JsValue)

  /** The field a rejected payload is rejected for. */
  datatype Field = NameField | AgeField | SubjectsField

  const NameMessage := "A Name must be provided"
  const AgeMessage := "Age must be provided"
  const SubjectsMessage := "Subjects must be provided and must be an array"

  function FieldMessage(f: Field): (msg: string)
    ensures f == NameField <==> msg == NameMessage
    ensures f == AgeField <==> msg == AgeMessage
    ensures f == SubjectsField <==> msg == SubjectsMessage
  {
    match f
    case NameField => NameMessage
    case AgeField => AgeMessage
    case SubjectsField => SubjectsMessage
  }

  /** The three checks, in the order the handlers make them. */
  const FieldOrder := [NameField, AgeField, SubjectsField]

  predicate Passes(b: StudentBody, f: Field) {
    match f
    case NameField => Truthy(b.name)
    case AgeField => Truthy(b.age)
    case SubjectsField => Truthy(b.subjects) && IsArray(b.subjects)
  }

  /** The first of `fields` whose check `b` fails. */
  function FirstFailing(b: StudentBody, fields: seq<Field>): Option<Field>
    decreases |fields|
  {
    if fields == [] then None
    else if !Passes(b, fields[0]) then Some(fields[0])
    else FirstFailing(b, fields[1..])
  }

  /**
   * The payload check of POST and PUT /students: the subject values when the
   * payload is accepted, otherwise the first field that fails.
   */
  function ValidateStudent(b: StudentBody): (r: Result<seq<JsValue>, Field>)
    ensures r == Failure(NameField) <==> !Truthy(b.name)
    ensures r == Failure(AgeField) <==> Truthy(b.name) && !Truthy(b.age)
    ensures r == Failure(SubjectsField) <==> Truthy(b.name) && Truthy(b.age) && !IsArray(b.subjects)
    ensures r.Success? <==> Truthy(b.name) && Truthy(b.age) && IsArray(b.subjects)
    ensures r.Success? ==> b.subjects == Arr(r.value)
  {
    if !Truthy(b.name) then Failure(NameField)
    else if !Truthy(b.age) then Failure(AgeField)
    else if !Truthy(b.subjects) || !IsArray(b.subjects) then Failure(SubjectsField)
    else Success(b.subjects.elems)
  }

  /** The check reports exactly the first failing field in the order name, age, subjects. */
  lemma ValidationFollowsFieldOrder(b: StudentBody)
    ensures ValidateStudent(b).Failure? <==> FirstFailing(b, FieldOrder).Some?
    ensures ValidateStudent(b).Failure? ==> FirstFailing(b, FieldOrder) == Some(ValidateStudent(b).error)
  {
    assert FieldOrder[1..] == [AgeField, SubjectsField];
    assert FieldOrder[1..][1..] == [SubjectsField];
  }

  /** Absent, null, empty or zero names and ages are rejected; an empty subject array is accepted. */
  lemma FalsyValuesRejected(b: StudentBody)
    ensures ValidateStudent(b.(name := Undefined)) == Failure(NameField)
    ensures ValidateStudent(b.(name := Str(""))) == Failure(NameField)
    ensures Truthy(b.name) ==> ValidateStudent(b.(age := Num(0.0))) == Failure(AgeField)
    ensures Truthy(b.name) ==> ValidateStudent(b.(age := Undefined)) == Failure(AgeField)
    ensures Truthy(b.name) && Truthy(b.age) ==> ValidateStudent(b.(subjects := Str("Alchemy"))) == Failure(SubjectsField)
    ensures Truthy(b.name) && Truthy(b.age) ==> ValidateStudent(b.(subjects := Arr([]))) == Success([])
  {
  }

  /** subjects.map(subject => ({_id: new ObjectId(), name: subject})), the ids drawn from `first` on. */
  function BuildSubjects(names: seq<JsValue>, first: ObjectId): (entries: seq<SubjectEntry>)
    ensures |entries| == |names|
    ensures forall i :: 0 <= i < |names| ==> entries[i].name == names[i] && entries[i].id == first + i
    decreases |names|
  {
    if names == [] then []
    else [SubjectEntry(first, names[0])] + BuildSubjects(names[1..], first + 1)
  }

  function SubjectNames(entries: seq<SubjectEntry>): seq<JsValue>
    decreases |entries|
  {
    if entries == [] then [] else [entries[0].name] + SubjectNames(entries[1..])
  }

  /** The built subjects keep the input's values, in order. */
  lemma {:induction false} SubjectNamesRoundTrip(names: seq<JsValue>, first: ObjectId)
    ensures SubjectNames(BuildSubjects(names, first)) == names
    decreases |names|
  {
    if names != [] {
      SubjectNamesRoundTrip(names[1..], first + 1);
      assert names == [names[0]] + names[1..];
    }
  }

  /** The subject ids are pairwise distinct, and none of them is an id handed out before `first`. */
  lemma SubjectIdsDistinctAndFresh(names: seq<JsValue>, first: ObjectId)
    ensures forall i, j :: 0 <= i < j < |names| ==> BuildSubjects(names, first)[i].id != BuildSubjects(names, first)[j].id
    ensures forall i :: 0 <= i < |names| ==> first <= BuildSubjects(names, first)[i].id < first + |names|
  {
  }

  /** The document POST inserts and PUT $sets, its subject ids drawn from `first` on. */
  function NewStudent(b: StudentBody, names: seq<JsValue>, first: ObjectId): (s: Student)
    ensures s.name == b.name && s.age == b.age && s.dateEnrolled == DateFrom(b.dateEnrolled)
    ensures SubjectNames(s.subjects) == names
    ensures forall i :: 0 <= i < |s.subjects| ==> first <= s.subjects[i].id < first + |names|
  {
    SubjectNamesRoundTrip(names, first);
    Student(b.name, b.age, BuildSubjects(names, first), DateFrom(b.dateEnrolled))
  }

  /** The query parameters of GET /students. */
  datatype Query = Query(name: JsValue, subjects: JsValue)

  /** `{$regex: pattern, $options: options}` */
  datatype NameClause = NameClause(pattern: JsValue, options: string)
  /** `{$in: values}` */
  datatype SubjectsClause = SubjectsClause(values: seq<JsValue>)

  /** The criteria object; an absent clause is an absent key. */
  datatype Criteria = Criteria(name: Option<NameClause>, subjects: Option<SubjectsClause>)

  const EmptyCriteria := Criteria(None, None)

  /** `c` is the criteria GET /students builds from `q`. */
  ghost predicate CriteriaFor(q: Query, c: Criteria) {
    && (c.name.Some? <==> Truthy(q.name))
    && (c.name.Some? ==> c.name.value == NameClause(q.name, "i"))
    && (c.subjects.Some? <==> Truthy(q.subjects))
    && (c.subjects.Some? ==> c.subjects.value == SubjectsClause([q.subjects]))
  }

  /** Builds the list filter field by field, adding a clause only for a truthy parameter. */
  method BuildCriteria(q: Query) returns (c: Criteria)
    ensures CriteriaFor(q, c)
    ensures !Truthy(q.name) && !Truthy(q.subjects) ==> c == EmptyCriteria
  {
    c := EmptyCriteria;
    if Truthy(q.name) {
      c := c.(name := Some(NameClause(q.name, "i")));
    }
    if Truthy(q.subjects) {
      c := c.(subjects := Some(SubjectsClause([q.subjects])));
    }
  }

  /** GET /students; `matches` is how the store evaluates a criteria document. */
  method ListStudents(db: Db, res: Response, q: Query, matches: (Criteria, Student) -> bool)
    modifies res
    ensures res.status == old(res.status)
    ensures exists c :: CriteriaFor(q, c) && res.body == Some(StudentList(Selected(db.students, c, matches)))
  {
    var c := BuildCriteria(q);
    var results := db.FindStudents(c, matches);
    res.Json(StudentList(results));
  }

  /**
   * The three checks of POST and PUT /students; on the first failure it
   * answers 400 with that field's message.
   */
  method CheckStudentBody(res: Response, b: StudentBody) returns (ok: bool)
    modifies res
    ensures ok <==> ValidateStudent(b).Success?
    ensures ok ==> unchanged(res)
    ensures !ok ==> Delivered(res, old(res.status), Answer(Some(400), ErrorMessage(FieldMessage(ValidateStudent(b).error))))
  {
    if !Truthy(b.name) {
      res.Status(400);
      res.Json(ErrorMessage(NameMessage));
      return false;
    }
    if !Truthy(b.age) {
      res.Status(400);
      res.Json(ErrorMessage(AgeMessage));
      return false;
    }
    if !Truthy(b.subjects) || !IsArray(b.subjects) {
      res.Status(400);
      res.Json(ErrorMessage(SubjectsMessage));
      return false;
    }
    return true;
  }

  /** POST /students */
  method CreateStudent(db: Db, res: Response, b: StudentBody)
    requires db.Valid()
    modifies db, res
    ensures db.Valid()
    ensures ValidateStudent(b).Failure? ==>
      && Delivered(res, old(res.status), Answer(Some(400), ErrorMessage(FieldMessage(ValidateStudent(b).error))))
      && unchanged(db)
    ensures ValidateStudent(b).Success? ==>
      var names := ValidateStudent(b).value;
      var id := old(db.nextId) + |names|;
      && Delivered(res, old(res.status), Answer(None, InsertReply(InsertOneResult(true, id))))
      && id !in old(db.students)
      && db.students == old(db.students)[id := NewStudent(b, names, old(db.nextId))]
      && db.users == old(db.users)
      && db.nextId == id + 1
  {
    var ok := CheckStudentBody(res, b);
    if !ok {
      return;
    }
    var names := b.subjects.elems;
    var first := db.NewObjectIds(|names|);
    var student := NewStudent(b, names, first);
    var result := db.InsertStudent(student);
    res.Json(InsertReply(result));
  }

  /** PUT /students/:studentid; the reply is the constructed document, whatever the store did. */
  method ReplaceStudent(db: Db, res: Response, id: ObjectId, b: StudentBody)
    requires db.Valid()
    modifies db, res
    ensures db.Valid()
    ensures ValidateStudent(b).Failure? ==>
      && Delivered(res, old(res.status), Answer(Some(400), ErrorMessage(FieldMessage(ValidateStudent(b).error))))
      && unchanged(db)
    ensures ValidateStudent(b).Success? ==>
      var names := ValidateStudent(b).value;
      var modified := NewStudent(b, names, old(db.nextId));
      && Delivered(res, old(res.status), Answer(None, StudentReply(modified)))
      && db.students == (if id in old(db.students) then old(db.students)[id := modified] else old(db.students))
      && db.users == old(db.users)
      && db.nextId == old(db.nextId) + |names|
  {
    var ok := CheckStudentBody(res, b);
    if !ok {
      return;
    }
    var names := b.subjects.elems;
    var first := db.NewObjectIds(|names|);
    var modified := NewStudent(b, names, first);
    db.UpdateStudent(id, modified);
    res.Json(StudentReply(modified));
  }

  const DeletedMessage := "Deleted"

  /** DELETE /students/:id; answers the same whether or not a document matched. */
  method DeleteStudent(db: Db, res: Response, id: ObjectId)
    requires db.Valid()
    modifies db`students, res
    ensures db.Valid()
    ensures db.students == old(db.students) - {id}
    ensures forall k :: k in old(db.students) && k != id ==> k in db.students && db.students[k] == old(db.students)[k]
    ensures Delivered(res, old(res.status), Answer(None, MessageReply(DeletedMessage)))
  {
    db.DeleteStudent(id);
    res.Json(MessageReply(DeletedMessage));
  }
}
