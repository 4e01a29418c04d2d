/**
 * The database behind the services: one id-keyed table per model, ids drawn
 * from an auto-increment counter per table, and `level` unique among HSK
 * levels. The lessons table is read here but maintained by the lessons
 * service, which is not part of this model.
 */
module Store {
  import opened Wrappers
  import opened Entities
  import Tables

  /** Why a write was refused: no record with the id (`P2025`), or a unique column clash (`P2002`). */
  datatype DbError = NotFound | UniqueViolation(column: string)

  /** The id columns, as the functions `Tables.Keyed` checks the keys against. */
  function LevelIdOf(l: HskLevel): int
  {
    l.id
  }

  function VocabularyIdOf(v: Vocabulary): int
  {
    v.id
  }

  function DialogueLineIdOf(l: DialogueLine): int
  {
    l.id
  }

  function LessonIdOf(l: Lesson): int
  {
    l.id
  }

  /** No two stored levels share a `level` number. */
  ghost predicate LevelNumbersUnique(levels: map<int, HskLevel>)
  {
    forall a, b :: a in levels && b in levels && levels[a].level == levels[b].level ==> a == b
  }

  /** Some stored level already has the number `level`. */
  predicate LevelInUse(levels: map<int, HskLevel>, level: int)
  {
    exists k :: k in levels && levels[k].level == level
  }

  /** Some level other than `except` already has the number `level`. */
  predicate LevelTaken(levels: map<int, HskLevel>, level: int, except: int)
  {
    exists k :: k in levels && k != except && levels[k].level == level
  }

  /** The lesson with id `lessonId`, if stored; what an `include: { lesson: true }` attaches. */
  function LessonFor(lessons: map<int, Lesson>, lessonId: int): (r: Option<Lesson>)
    ensures r.Some? <==> lessonId in lessons
    ensures r.Some? ==> r.value == lessons[lessonId]
    ensures r.Some? && Tables.KeyedBy(lessons, LessonIdOf) ==> r.value.id == lessonId
  {
    if lessonId in lessons then Some(lessons[lessonId]) else None
  }

  /** A record with its lesson joined in (none when the lesson is not stored). */
  datatype WithLesson<T> = WithLesson(row: T, lesson: Option<Lesson>)

  /** Each record of `s`, in the same order, with the lesson its `lessonId` names attached. */
  function AttachLessons<T>(lessons: map<int, Lesson>, s: seq<T>, lessonId: T -> int): (r: seq<WithLesson<T>>)
    ensures |r| == |s|
    ensures forall i :: 0 <= i < |s| ==> r[i] == WithLesson(s[i], LessonFor(lessons, lessonId(s[i])))
    ensures Tables.Distinct(s) ==> Tables.Distinct(r)
  {
    seq(|s|, i requires 0 <= i < |s| => WithLesson(s[i], LessonFor(lessons, lessonId(s[i]))))
  }

  /** A joined record is listed exactly when its record is, with the lesson its `lessonId` names. */
  lemma AttachLessonsMembers<T>(lessons: map<int, Lesson>, s: seq<T>, lessonId: T -> int, x: WithLesson<T>)
    ensures x in AttachLessons(lessons, s, lessonId) <==> x.row in s && x.lesson == LessonFor(lessons, lessonId(x.row))
  {
    var r := AttachLessons(lessons, s, lessonId);
    if x in r {
      var i :| 0 <= i < |r| && r[i] == x;
      assert s[i] == x.row;
    }
    if x.row in s && x.lesson == LessonFor(lessons, lessonId(x.row)) {
      var i :| 0 <= i < |s| && s[i] == x.row;
      assert r[i] == x;
    }
  }

  class Database {
    var levels: map<int, HskLevel>
    var lessons: map<int, Lesson>
    var vocabularies: map<int, Vocabulary>
    var dialogueLines: map<int, DialogueLine>
    var nextLevelId: int
    var nextVocabularyId: int
    var nextDialogueLineId: int

    ghost predicate Valid()
      reads this
    {
      && 1 <= nextLevelId && 1 <= nextVocabularyId && 1 <= nextDialogueLineId
      && Tables.Keyed(levels, nextLevelId, LevelIdOf)
      && LevelNumbersUnique(levels)
      && Tables.Keyed(vocabularies, nextVocabularyId, VocabularyIdOf)
      && Tables.Keyed(dialogueLines, nextDialogueLineId, DialogueLineIdOf)
      && Tables.KeyedBy(lessons, LessonIdOf)
    }

    /** A database whose level, vocabulary and dialogue tables are empty, over a given lessons table. */
    constructor(lessons: map<int, Lesson>)
      requires Tables.KeyedBy(lessons, LessonIdOf)
      ensures Valid()
      ensures this.lessons == lessons
      ensures levels == map[] && vocabularies == map[] && dialogueLines == map[]
      ensures nextLevelId == 1 && nextVocabularyId == 1 && nextDialogueLineId == 1
    {
      this.lessons := lessons;
      levels := map[];
      vocabularies := map[];
      dialogueLines := map[];
      nextLevelId := 1;
      nextVocabularyId := 1;
      nextDialogueLineId := 1;
    }
  }
}
