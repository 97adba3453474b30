/** `Service/ResearchService.java`: create, read, update, delete and search
    over the saved research entries.  The repository is a map from id to
    entity; the query methods of `Repository/ResearchRepository.java` are
    stated by what they select; today's date is a parameter. */
module ResearchCrud {
  import opened Wrappers
  import opened Text

  /** A `LocalDate`, as a day number. */
  type Date = int

  /** `Entity/Research.java`; a null field is `None`. */
  datatype Research = Research(id: int, title: Option<string>, content: Option<string>, date: Option<Date>)

  const NotFoundPrefix := "Research not found with id: "
  const BadRange := "Start date cannot be after end date"

  /** The message of the exception raised for a missing id. */
  function NotFound(id: int): string {
    NotFoundPrefix + IntToString(id)
  }

  /** Different ids give different messages. */
  lemma NotFoundNamesTheId(a: int, b: int)
    requires NotFound(a) == NotFound(b)
    ensures a == b
  {
    assert IntToString(a) == NotFound(a)[|NotFoundPrefix|..];
    assert IntToString(b) == NotFound(b)[|NotFoundPrefix|..];
    IntToStringInjective(a, b);
  }

  /** `LOWER(field) LIKE LOWER(CONCAT('%', word, '%'))`; a null field never
      matches. */
  predicate FieldMatches(field: Option<string>, word: string) {
    field.Some? && Like(Lower(field.value), Lower("%" + word + "%"))
  }

  /** `searchAnywhere`: the title or the content matches. */
  predicate Matches(r: Research, word: string) {
    FieldMatches(r.title, word) || FieldMatches(r.content, word)
  }

  /** `findByDateBetween`: a date between the bounds, both included; a null
      date never matches. */
  predicate InRange(r: Research, start: Date, end: Date) {
    r.date.Some? && start <= r.date.value <= end
  }

  lemma {:induction false} LowerConcat(a: string, b: string)
    ensures Lower(a + b) == Lower(a) + Lower(b)
  {
    if a == [] {
      assert a + b == b;
    } else {
      assert (a + b)[1..] == a[1..] + b;
      LowerConcat(a[1..], b);
    }
  }

  /** Lower-casing adds no wildcard. */
  lemma LowerKeepsNoWildcards(w: string)
    requires NoWildcards(w)
    ensures NoWildcards(Lower(w))
  {
    forall i | 0 <= i < |w| ensures Lower(w)[i] != '%' && Lower(w)[i] != '_' {
      assert w[i] in w;
    }
  }

  /** For a word without `%` and `_`, a field matches exactly when its
      lower-cased text contains the lower-cased word. */
  lemma FieldMatchesMeansContains(field: Option<string>, word: string)
    requires NoWildcards(word)
    ensures FieldMatches(field, word) <==> field.Some? && Contains(Lower(field.value), Lower(word))
  {
    LowerConcat("%" + word, "%");
    LowerConcat("%", word);
    assert Lower("%") == "%";
    LowerKeepsNoWildcards(word);
    if field.Some? {
      LikeSurroundedMeansContains(Lower(field.value), Lower(word));
    }
  }

  /** A `%` in the word matches any run of characters: an empty word, or
      `%` alone, selects every entry that has a title or a content. */
  lemma PercentMatchesEveryField(s: string)
    ensures FieldMatches(Some(s), "") && FieldMatches(Some(s), "%")
  {
    assert Lower("%" + "" + "%") == "%%";
    assert Lower("%" + "%" + "%") == "%%%";
    LikePercentMatchesAll(Lower(s));
    assert "%%"[1..] == "%";
    assert "%%%"[1..] == "%%";
  }

  /** The service over its repository: the stored entities by id and the
      next identity the database will assign. */
  class ResearchService {
    var store: map<int, Research>
    var nextId: int

    /** Each entity is stored under its own id, below the next identity. */
    ghost predicate Valid()
      reads this
    {
      forall id :: id in store ==> store[id].id == id && id < nextId
    }

    /** `r` is the entity stored under its id. */
    ghost predicate Stored(r: Research)
      reads this
    {
      r.id in store && store[r.id] == r
    }

    constructor ()
      ensures Valid() && store == map[] && nextId == 1
    {
      store := map[];
      nextId := 1;
    }

    /** `createResearch` for an entity without an id: a null date becomes
        today, a given date is kept, and the database assigns a new id. */
    method Create(title: Option<string>, content: Option<string>, date: Option<Date>, today: Date)
      returns (saved: Research)
      requires Valid()
      modifies this
      ensures Valid()
      ensures saved.id == old(nextId) && saved.id !in old(store)
      ensures saved.title == title && saved.content == content
      ensures saved.date == Some(if date.Some? then date.value else today)
      ensures store == old(store)[saved.id := saved] && nextId == old(nextId) + 1
    {
      var d := date;
      if d.None? {
        d := Some(today);
      }
      saved := Research(nextId, title, content, d);
      store := store[nextId := saved];
      nextId := nextId + 1;
    }

    /** `getAllResearch`. */
    method GetAll() returns (all: set<Research>)
      requires Valid()
      ensures forall r :: r in all <==> Stored(r)
    {
      all := set id | id in store :: store[id];
    }

    /** `getResearchById`. */
    method GetById(id: int) returns (r: Result<Research, string>)
      ensures id in store ==> r == Success(store[id])
      ensures id !in store ==> r == Failure(NotFound(id))
    {
      if id in store {
        r := Success(store[id]);
      } else {
        r := Failure(NotFound(id));
      }
    }

    /** `updateResearch`: the title and content are replaced, the date
        becomes today, the id stays; every other entity is untouched. */
    method Update(id: int, title: Option<string>, content: Option<string>, today: Date)
      returns (r: Result<Research, string>)
      requires Valid()
      modifies this`store
      ensures Valid()
      ensures id !in old(store) ==> r == Failure(NotFound(id)) && store == old(store)
      ensures id in old(store) ==>
        && r == Success(Research(id, title, content, Some(today)))
        && store == old(store)[id := r.value]
    {
      var existing := GetById(id);
      if existing.Failure? {
        return Failure(existing.error);
      }
      var updated := existing.value.(title := title, content := content, date := Some(today));
      store := store[id := updated];
      r := Success(updated);
    }

    /** `deleteResearch`: `None` when the entity was removed, otherwise
        the message of the exception raised. */
    method Delete(id: int) returns (error: Option<string>)
      requires Valid()
      modifies this`store
      ensures Valid()
      ensures id !in old(store) ==> error == Some(NotFound(id)) && store == old(store)
      ensures id in old(store) ==> error.None? && store == old(store) - {id}
    {
      if id !in store {
        return Some(NotFound(id));
      }
      store := store - {id};
      error := None;
    }

    /** `searchResearch`: the query is trimmed (Java `trim`), then every
        entity whose title or content matches it is returned. */
    method Search(query: string) returns (found: set<Research>)
      requires Valid()
      ensures forall r :: r in found <==> Stored(r) && Matches(r, JavaTrim(query))
    {
      var word := JavaTrim(query);
      found := set id | id in store && Matches(store[id], word) :: store[id];
    }

    /** `searchByDateRange`. */
    method SearchByDateRange(start: Date, end: Date) returns (r: Result<set<Research>, string>)
      requires Valid()
      ensures start > end ==> r == Failure(BadRange)
      ensures start <= end ==>
        r.Success? && forall e :: e in r.value <==> Stored(e) && InRange(e, start, end)
    {
      if start > end {
        return Failure(BadRange);
      }
      r := Success(set id | id in store && InRange(store[id], start, end) :: store[id]);
    }
  }

  /** A search for a word without wildcards finds exactly the entities
      whose lower-cased title or content contains the lower-cased word. */
  lemma SearchFindsContainingEntries(r: Research, word: string)
    requires NoWildcards(word)
    ensures Matches(r, word) <==>
      (r.title.Some? && Contains(Lower(r.title.value), Lower(word)))
      || (r.content.Some? && Contains(Lower(r.content.value), Lower(word)))
  {
    FieldMatchesMeansContains(r.title, word);
    FieldMatchesMeansContains(r.content, word);
  }

  /** A range whose bounds are the same day selects the entities of that
      day; widening a range never loses an entity. */
  lemma DateRangeProperties(r: Research, start: Date, end: Date, start': Date, end': Date)
    ensures InRange(r, start, start) <==> r.date == Some(start)
    ensures start' <= start && end <= end' && InRange(r, start, end) ==> InRange(r, start', end')
  {
  }
}
