/**
 * The dialogue lines service: create, list ordered by `orderIndex` with each
 * line's lesson attached, look one up with its lesson, partially update and
 * delete, over the database's `dialogueLines` table.
 */
module DialogueLines {
  import opened Wrappers
  import opened Entities
  import opened Store
  import Tables

  /** The column `findAll` orders by. */
  function OrderIndexOf(l: DialogueLine): int
  {
    l.orderIndex
  }

  /** The column the attached lesson is looked up by. */
  function LineLessonId(l: DialogueLine): int
  {
    l.lessonId
  }

  class DialogueLinesService {
    const db: Database

    constructor(db: Database)
      ensures this.db == db
    {
      this.db := db;
    }

    /**
     * Every stored line, each once with its lesson, in non-decreasing order
     * of `orderIndex`; lines with equal `orderIndex` come in no promised order.
     */
    function FindAll(): (r: seq<WithLesson<DialogueLine>>)
      reads db
      ensures |r| == |db.dialogueLines|
      ensures db.Valid() ==> Tables.Distinct(r)
      ensures forall i, j :: 0 <= i < j < |r| ==> r[i].row.orderIndex <= r[j].row.orderIndex
      ensures forall x :: x in r <==>
        x.row in db.dialogueLines.Values && x.lesson == LessonFor(db.lessons, x.row.lessonId)
      ensures db.Valid() ==> forall x :: x in r && x.lesson.Some? ==> x.lesson.value.id == x.row.lessonId
    {
      var rows := Tables.Rows(db.dialogueLines);
      var sorted := Tables.SortBy(rows, OrderIndexOf);
      assert |sorted| == |rows| by {
        assert |multiset(sorted)| == |multiset(rows)|;
      }
      assert db.Valid() ==> Tables.Distinct(sorted) by {
        if db.Valid() {
          Tables.RowsDistinct(db.dialogueLines, DialogueLineIdOf);
          Tables.DistinctPermutation(sorted, rows);
        }
      }
      var r := AttachLessons(db.lessons, sorted, LineLessonId);
      assert forall x :: x in r <==>
        x.row in db.dialogueLines.Values && x.lesson == LessonFor(db.lessons, x.row.lessonId) by {
        forall x ensures x in r <==>
          x.row in db.dialogueLines.Values && x.lesson == LessonFor(db.lessons, x.row.lessonId) {
          AttachLessonsMembers(db.lessons, sorted, LineLessonId, x);
          Tables.SortByMembers(rows, OrderIndexOf, x.row);
          Tables.RowsMembers(db.dialogueLines, x.row);
        }
      }
      r
    }

    /** Line `id` with its lesson, or nothing when there is no such line. */
    function FindOne(id: int): (r: Option<WithLesson<DialogueLine>>)
      reads db
      ensures r.Some? <==> id in db.dialogueLines
      ensures r.Some? ==> r.value.row == db.dialogueLines[id]
      ensures r.Some? ==> r.value.lesson == LessonFor(db.lessons, r.value.row.lessonId)
      ensures db.Valid() && r.Some? && r.value.lesson.Some? ==> r.value.lesson.value.id == r.value.row.lessonId
    {
      if id in db.dialogueLines then
        var l := db.dialogueLines[id];
        Some(WithLesson(l, LessonFor(db.lessons, l.lessonId)))
      else None
    }

    /** Stores a new line under the next id. */
    method Create(d: CreateDialogueLine) returns (r: DialogueLine)
      requires db.Valid()
      modifies db`dialogueLines, db`nextDialogueLineId
      ensures db.Valid()
      ensures old(db.nextDialogueLineId) !in old(db.dialogueLines)
      ensures r == NewDialogueLine(old(db.nextDialogueLineId), d)
      ensures db.dialogueLines == old(db.dialogueLines)[r.id := r]
      ensures |db.dialogueLines| == |old(db.dialogueLines)| + 1
      ensures db.nextDialogueLineId == old(db.nextDialogueLineId) + 1
      ensures FindOne(r.id).Some? && FindOne(r.id).value.row == r
    {
      var id := db.nextDialogueLineId;
      r := NewDialogueLine(id, d);
      db.dialogueLines := db.dialogueLines[id := r];
      db.nextDialogueLineId := id + 1;
    }

    /** Overwrites the supplied fields of line `id`; fails, changing nothing, when there is none. */
    method Update(id: int, u: UpdateDialogueLine) returns (r: Result<DialogueLine, DbError>)
      requires db.Valid()
      modifies db`dialogueLines
      ensures db.Valid()
      ensures id in old(db.dialogueLines) ==>
        && r == Success(ApplyDialogueLineUpdate(old(db.dialogueLines)[id], u))
        && db.dialogueLines == old(db.dialogueLines)[id := r.value]
      ensures id !in old(db.dialogueLines) ==> r == Failure(NotFound) && db.dialogueLines == old(db.dialogueLines)
      ensures r.Success? ==> FindOne(id).Some? && FindOne(id).value.row == r.value
    {
      if id in db.dialogueLines {
        var line := ApplyDialogueLineUpdate(db.dialogueLines[id], u);
        db.dialogueLines := db.dialogueLines[id := line];
        r := Success(line);
      } else {
        r := Failure(NotFound);
      }
    }

    /** Deletes line `id` and returns it; fails, changing nothing, when there is none. */
    method Remove(id: int) returns (r: Result<DialogueLine, DbError>)
      requires db.Valid()
      modifies db`dialogueLines
      ensures db.Valid()
      ensures id in old(db.dialogueLines) ==>
        r == Success(old(db.dialogueLines)[id]) && db.dialogueLines == old(db.dialogueLines) - {id}
      ensures id !in old(db.dialogueLines) ==> r == Failure(NotFound) && db.dialogueLines == old(db.dialogueLines)
      ensures FindOne(id).None?
    {
      if id in db.dialogueLines {
        r := Success(db.dialogueLines[id]);
        db.dialogueLines := db.dialogueLines - {id};
      } else {
        r := Failure(NotFound);
      }
    }
  }
}
