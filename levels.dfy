/**
 * The HSK levels service: create, list ordered by level number, look one up
 * with its lessons, partially update and delete, over the database's
 * `levels` table.
 */
module Levels {
  import opened Wrappers
  import opened Entities
  import opened Store
  import Tables

  /** A level together with the lessons that belong to it. */
  datatype LevelWithLessons = LevelWithLessons(level: HskLevel, lessons: seq<Lesson>)

  /** The column `findAll` orders by. */
  function LevelNumber(l: HskLevel): int
  {
    l.level
  }

  function HasLevelId(id: int): Lesson -> bool
  {
    (x: Lesson) => x.levelId == id
  }

  /** The stored lessons whose `levelId` is `id`, in id order. */
  function LessonsOf(lessons: map<int, Lesson>, id: int): (r: seq<Lesson>)
    ensures forall x :: x in r <==> x in lessons.Values && x.levelId == id
    ensures Tables.KeyedBy(lessons, LessonIdOf) ==> Tables.Distinct(r)
  {
    var r := Tables.Filter(Tables.Rows(lessons), HasLevelId(id));
    assert forall x :: x in r <==> x in lessons.Values && x.levelId == id by {
      forall x ensures x in r <==> x in lessons.Values && x.levelId == id {
        Tables.FilterMembers(Tables.Rows(lessons), HasLevelId(id), x);
        Tables.RowsMembers(lessons, x);
      }
    }
    assert Tables.KeyedBy(lessons, LessonIdOf) ==> Tables.Distinct(r) by {
      if Tables.KeyedBy(lessons, LessonIdOf) {
        Tables.RowsDistinct(lessons, LessonIdOf);
        Tables.FilterDistinct(Tables.Rows(lessons), HasLevelId(id));
      }
    }
    r
  }

  class LevelsService {
    const db: Database

    constructor(db: Database)
      ensures this.db == db
    {
      this.db := db;
    }

    /** Every stored level, each once, in non-decreasing order of `level`. */
    function FindAll(): (r: seq<HskLevel>)
      reads db
      ensures |r| == |db.levels|
      ensures db.Valid() ==> Tables.Distinct(r)
      ensures Tables.SortedBy(r, LevelNumber)
      ensures forall l :: l in r <==> l in db.levels.Values
    {
      var rows := Tables.Rows(db.levels);
      var r := Tables.SortBy(rows, LevelNumber);
      assert |r| == |rows| by {
        assert |multiset(r)| == |multiset(rows)|;
      }
      assert db.Valid() ==> Tables.Distinct(r) by {
        if db.Valid() {
          Tables.RowsDistinct(db.levels, LevelIdOf);
          Tables.DistinctPermutation(r, rows);
        }
      }
      assert forall l :: l in r <==> l in db.levels.Values by {
        forall l ensures l in r <==> l in db.levels.Values {
          Tables.SortByMembers(rows, LevelNumber, l);
          Tables.RowsMembers(db.levels, l);
        }
      }
      r
    }

    /** The level with id `id` and exactly its lessons, or nothing when there is no such level. */
    function FindOne(id: int): (r: Option<LevelWithLessons>)
      reads db
      ensures r.Some? <==> id in db.levels
      ensures r.Some? ==> r.value.level == db.levels[id]
      ensures r.Some? ==> forall x :: x in r.value.lessons <==> x in db.lessons.Values && x.levelId == id
      ensures db.Valid() && r.Some? ==> Tables.Distinct(r.value.lessons)
    {
      if id in db.levels then Some(LevelWithLessons(db.levels[id], LessonsOf(db.lessons, id))) else None
    }

    /**
     * Stores a new level under the next id; refused, with nothing stored,
     * when its level number is already in use. The id is drawn before the
     * insert is attempted, so a refused insert uses it up as well.
     */
    method Create(d: CreateLevel) returns (r: Result<HskLevel, DbError>)
      requires db.Valid()
      modifies db`levels, db`nextLevelId
      ensures db.Valid()
      ensures LevelInUse(old(db.levels), d.level) ==>
        && r == Failure(UniqueViolation("level"))
        && db.levels == old(db.levels)
      ensures !LevelInUse(old(db.levels), d.level) ==>
        && old(db.nextLevelId) !in old(db.levels)
        && r == Success(NewLevel(old(db.nextLevelId), d))
        && db.levels == old(db.levels)[old(db.nextLevelId) := r.value]
        && |db.levels| == |old(db.levels)| + 1
      ensures db.nextLevelId == old(db.nextLevelId) + 1
      ensures r.Success? ==> FindOne(r.value.id).Some? && FindOne(r.value.id).value.level == r.value
    {
      var id := db.nextLevelId;
      db.nextLevelId := id + 1;
      if LevelInUse(db.levels, d.level) {
        r := Failure(UniqueViolation("level"));
      } else {
        var level := NewLevel(id, d);
        db.levels := db.levels[id := level];
        r := Success(level);
      }
    }

    /**
     * Overwrites the supplied fields of level `id`. Fails, changing nothing,
     * when there is no such level or when the new level number belongs to
     * another level.
     */
    method Update(id: int, u: UpdateLevel) returns (r: Result<HskLevel, DbError>)
      requires db.Valid()
      modifies db`levels
      ensures db.Valid()
      ensures id !in old(db.levels) ==> r == Failure(NotFound)
      ensures id in old(db.levels) && u.level.Some? && LevelTaken(old(db.levels), u.level.value, id) ==>
        r == Failure(UniqueViolation("level"))
      ensures id in old(db.levels) && !(u.level.Some? && LevelTaken(old(db.levels), u.level.value, id)) ==>
        && r == Success(ApplyLevelUpdate(old(db.levels)[id], u))
        && db.levels == old(db.levels)[id := r.value]
      ensures r.Failure? ==> db.levels == old(db.levels)
      ensures r.Success? ==> FindOne(id).Some? && FindOne(id).value.level == r.value
    {
      if id !in db.levels {
        r := Failure(NotFound);
      } else if u.level.Some? && LevelTaken(db.levels, u.level.value, id) {
        r := Failure(UniqueViolation("level"));
      } else {
        var level := ApplyLevelUpdate(db.levels[id], u);
        db.levels := db.levels[id := level];
        r := Success(level);
      }
    }

    /** Deletes level `id` and returns it; fails, changing nothing, when there is none. */
    method Remove(id: int) returns (r: Result<HskLevel, DbError>)
      requires db.Valid()
      modifies db`levels
      ensures db.Valid()
      ensures id in old(db.levels) ==> r == Success(old(db.levels)[id]) && db.levels == old(db.levels) - {id}
      ensures id !in old(db.levels) ==> r == Failure(NotFound) && db.levels == old(db.levels)
      ensures FindOne(id).None?
    {
      if id in db.levels {
        r := Success(db.levels[id]);
        db.levels := db.levels - {id};
      } else {
        r := Failure(NotFound);
      }
    }
  }
}
