/**
 * The vocabulary service: create, list with each entry's lesson attached,
 * look one up with its lesson, partially update and delete, over the
 * database's `vocabularies` table. The listing promises no order.
 */
module Vocabularies {
  import opened Wrappers
  import opened Entities
  import opened Store
  import Tables

  /** The column the attached lesson is looked up by. */
  function EntryLessonId(v: Vocabulary): int
  {
    v.lessonId
  }

  class VocabulariesService {
    const db: Database

    constructor(db: Database)
      ensures this.db == db
    {
      this.db := db;
    }

    /** Every stored entry, each once with its lesson, in no promised order. */
    function FindAll(): (r: seq<WithLesson<Vocabulary>>)
      reads db
      ensures |r| == |db.vocabularies|
      ensures db.Valid() ==> Tables.Distinct(r)
      ensures forall x :: x in r <==>
        x.row in db.vocabularies.Values && x.lesson == LessonFor(db.lessons, x.row.lessonId)
      ensures db.Valid() ==> forall x :: x in r && x.lesson.Some? ==> x.lesson.value.id == x.row.lessonId
    {
      var rows := Tables.Rows(db.vocabularies);
      var r := AttachLessons(db.lessons, rows, EntryLessonId);
      assert db.Valid() ==> Tables.Distinct(r) by {
        if db.Valid() {
          Tables.RowsDistinct(db.vocabularies, VocabularyIdOf);
        }
      }
      assert forall x :: x in r <==>
        x.row in db.vocabularies.Values && x.lesson == LessonFor(db.lessons, x.row.lessonId) by {
        forall x ensures x in r <==>
          x.row in db.vocabularies.Values && x.lesson == LessonFor(db.lessons, x.row.lessonId) {
          AttachLessonsMembers(db.lessons, rows, EntryLessonId, x);
          Tables.RowsMembers(db.vocabularies, x.row);
        }
      }
      r
    }

    /** Entry `id` with its lesson, or nothing when there is no such entry. */
    function FindOne(id: int): (r: Option<WithLesson<Vocabulary>>)
      reads db
      ensures r.Some? <==> id in db.vocabularies
      ensures r.Some? ==> r.value.row == db.vocabularies[id]
      ensures r.Some? ==> r.value.lesson == LessonFor(db.lessons, r.value.row.lessonId)
      ensures db.Valid() && r.Some? && r.value.lesson.Some? ==> r.value.lesson.value.id == r.value.row.lessonId
    {
      if id in db.vocabularies then
        var v := db.vocabularies[id];
        Some(WithLesson(v, LessonFor(db.lessons, v.lessonId)))
      else None
    }

    /** Stores a new entry under the next id. */
    method Create(d: CreateVocabulary) returns (r: Vocabulary)
      requires db.Valid()
      modifies db`vocabularies, db`nextVocabularyId
      ensures db.Valid()
      ensures old(db.nextVocabularyId) !in old(db.vocabularies)
      ensures r == NewVocabulary(old(db.nextVocabularyId), d)
      ensures db.vocabularies == old(db.vocabularies)[r.id := r]
      ensures |db.vocabularies| == |old(db.vocabularies)| + 1
      ensures db.nextVocabularyId == old(db.nextVocabularyId) + 1
      ensures FindOne(r.id).Some? && FindOne(r.id).value.row == r
    {
      var id := db.nextVocabularyId;
      r := NewVocabulary(id, d);
      db.vocabularies := db.vocabularies[id := r];
      db.nextVocabularyId := id + 1;
    }

    /** Overwrites the supplied fields of entry `id`; fails, changing nothing, when there is none. */
    method Update(id: int, u: UpdateVocabulary) returns (r: Result<Vocabulary, DbError>)
      requires db.Valid()
      modifies db`vocabularies
      ensures db.Valid()
      ensures id in old(db.vocabularies) ==>
        && r == Success(ApplyVocabularyUpdate(old(db.vocabularies)[id], u))
        && db.vocabularies == old(db.vocabularies)[id := r.value]
      ensures id !in old(db.vocabularies) ==> r == Failure(NotFound) && db.vocabularies == old(db.vocabularies)
      ensures r.Success? ==> FindOne(id).Some? && FindOne(id).value.row == r.value
    {
      if id in db.vocabularies {
        var entry := ApplyVocabularyUpdate(db.vocabularies[id], u);
        db.vocabularies := db.vocabularies[id := entry];
        r := Success(entry);
      } else {
        r := Failure(NotFound);
      }
    }

    /** Deletes entry `id` and returns it; fails, changing nothing, when there is none. */
    method Remove(id: int) returns (r: Result<Vocabulary, DbError>)
      requires db.Valid()
      modifies db`vocabularies
      ensures db.Valid()
      ensures id in old(db.vocabularies) ==>
        r == Success(old(db.vocabularies)[id]) && db.vocabularies == old(db.vocabularies) - {id}
      ensures id !in old(db.vocabularies) ==> r == Failure(NotFound) && db.vocabularies == old(db.vocabularies)
      ensures FindOne(id).None?
    {
      if id in db.vocabularies {
        r := Success(db.vocabularies[id]);
        db.vocabularies := db.vocabularies - {id};
      } else {
        r := Failure(NotFound);
      }
    }
  }
}
