/**
 * The vendor dashboard's list of literary genres: genres are added from free
 * text or picked from a preset list, never twice under names that differ only
 * in letter case, and removed by id.
 */
module Dashboard {
  import opened Wrappers
  import opened Text

  datatype Genre = Genre(id: string, name: string)

  /** The preset genres offered for one-click selection. */
  const AvailableGenres: seq<string> := [
    "Fiction", "Non-Fiction", "Science Fiction", "Fantasy", "Mystery",
    "Romance", "Thriller", "Horror", "Biography", "History",
    "Science", "Philosophy", "Religion", "Self-Help", "Business",
    "Children's Books", "Young Adult", "Poetry", "Drama", "Comics"]

  /** Some genre's name equals `name` once both are lower-cased. */
  predicate HasName(genres: seq<Genre>, name: string) {
    exists i :: 0 <= i < |genres| && Lower(genres[i].name) == Lower(name)
  }

  /** `genres.find(g => g.name.toLowerCase() === name.toLowerCase())`. */
  function FindByName(genres: seq<Genre>, name: string): (r: Option<Genre>)
    ensures r.Some? <==> HasName(genres, name)
    ensures r.Some? ==> r.value in genres && Lower(r.value.name) == Lower(name)
  {
    if genres == [] then None
    else if Lower(genres[0].name) == Lower(name) then Some(genres[0])
    else FindByName(genres[1..], name)
  }

  /** No two genres share a lower-cased name. */
  predicate NamesDistinct(genres: seq<Genre>) {
    forall i, j :: 0 <= i < j < |genres| ==> Lower(genres[i].name) != Lower(genres[j].name)
  }

  predicate IdsDistinct(genres: seq<Genre>) {
    forall i, j :: 0 <= i < j < |genres| ==> genres[i].id != genres[j].id
  }

  predicate HasId(genres: seq<Genre>, id: string) {
    exists i :: 0 <= i < |genres| && genres[i].id == id
  }

  /**
   * `handleAddGenre`'s guard: the input is not blank after trimming, and no
   * genre has its (untrimmed) name up to case.
   */
  predicate CanAdd(genres: seq<Genre>, input: string) {
    Trim(input) != [] && FindByName(genres, input).None?
  }

  /** The genre list after `handleAddGenre` with the text `input` and the new id `freshId`. */
  function AddedGenres(genres: seq<Genre>, input: string, freshId: string): seq<Genre> {
    if CanAdd(genres, input) then genres + [Genre(freshId, input)] else genres
  }

  /** The genre list after `handleSelectFromList(genre)` with the new id `freshId`. */
  function SelectedGenres(genres: seq<Genre>, genre: string, freshId: string): seq<Genre> {
    if FindByName(genres, genre).None? then genres + [Genre(freshId, genre)] else genres
  }

  /** `handleRemoveGenre(id)`: `genres.filter(g => g.id !== id)`. */
  function RemainingGenres(genres: seq<Genre>, id: string): (r: seq<Genre>)
    ensures !HasId(r, id)
    ensures !HasId(genres, id) ==> r == genres
  {
    if genres == [] then []
    else if genres[0].id == id then RemainingGenres(genres[1..], id)
    else [genres[0]] + RemainingGenres(genres[1..], id)
  }

  /** Removal keeps exactly the genres whose id differs. */
  lemma {:induction false} RemainingGenresMembers(genres: seq<Genre>, id: string)
    ensures forall g :: g in RemainingGenres(genres, id) <==> g in genres && g.id != id
  {
    if genres != [] {
      RemainingGenresMembers(genres[1..], id);
      assert genres == [genres[0]] + genres[1..];
    }
  }

  /** Removal distributes over concatenation: it keeps the remaining genres in order. */
  lemma {:induction false} RemainingGenresConcat(a: seq<Genre>, b: seq<Genre>, id: string)
    ensures RemainingGenres(a + b, id) == RemainingGenres(a, id) + RemainingGenres(b, id)
  {
    if a == [] {
      assert a + b == b;
    } else {
      assert (a + b)[1..] == a[1..] + b;
      RemainingGenresConcat(a[1..], b, id);
    }
  }

  /** Adding keeps names distinct up to case. */
  lemma AddKeepsNamesDistinct(genres: seq<Genre>, input: string, freshId: string)
    requires NamesDistinct(genres)
    ensures NamesDistinct(AddedGenres(genres, input, freshId))
  {
  }

  /** Selecting a preset keeps names distinct up to case. */
  lemma SelectKeepsNamesDistinct(genres: seq<Genre>, genre: string, freshId: string)
    requires NamesDistinct(genres)
    ensures NamesDistinct(SelectedGenres(genres, genre, freshId))
  {
  }

  /** Removing keeps names distinct up to case. */
  lemma {:induction false} RemoveKeepsNamesDistinct(genres: seq<Genre>, id: string)
    requires NamesDistinct(genres)
    ensures NamesDistinct(RemainingGenres(genres, id))
  {
    if genres != [] {
      var head, tail := genres[0], genres[1..];
      RemoveKeepsNamesDistinct(tail, id);
      RemainingGenresMembers(tail, id);
      var rest := RemainingGenres(tail, id);
      if head.id != id {
        forall k | 0 <= k < |rest| ensures Lower(rest[k].name) != Lower(head.name) {
          assert rest[k] in tail;
          var j :| 0 <= j < |tail| && tail[j] == rest[k];
          assert genres[j + 1] == rest[k];
        }
        assert RemainingGenres(genres, id) == [head] + rest;
      }
    }
  }

  /** Removing keeps ids distinct. */
  lemma {:induction false} RemoveKeepsIdsDistinct(genres: seq<Genre>, id: string)
    requires IdsDistinct(genres)
    ensures IdsDistinct(RemainingGenres(genres, id))
  {
    if genres != [] {
      var head, tail := genres[0], genres[1..];
      RemoveKeepsIdsDistinct(tail, id);
      RemainingGenresMembers(tail, id);
      var rest := RemainingGenres(tail, id);
      if head.id != id {
        forall k | 0 <= k < |rest| ensures rest[k].id != head.id {
          assert rest[k] in tail;
          var j :| 0 <= j < |tail| && tail[j] == rest[k];
          assert genres[j + 1] == rest[k];
        }
        assert RemainingGenres(genres, id) == [head] + rest;
      }
    }
  }

  /** Selecting the same preset twice gives the list selecting it once gives. */
  lemma SelectIdempotent(genres: seq<Genre>, genre: string, id1: string, id2: string)
    ensures SelectedGenres(SelectedGenres(genres, genre, id1), genre, id2) == SelectedGenres(genres, genre, id1)
  {
    var once := SelectedGenres(genres, genre, id1);
    if FindByName(genres, genre).None? {
      assert Lower(once[|genres|].name) == Lower(genre);
    }
  }

  /** Once a name is in the list, neither adding nor selecting it again in any case changes the list. */
  lemma PresentNameRejected(genres: seq<Genre>, name: string, other: string, freshId: string)
    requires HasName(genres, name) && Lower(other) == Lower(name)
    ensures AddedGenres(genres, other, freshId) == genres
    ensures SelectedGenres(genres, other, freshId) == genres
  {
  }

  /** Removing the fresh id of a successful add restores the list. */
  lemma AddThenRemoveRestores(genres: seq<Genre>, input: string, freshId: string)
    requires !HasId(genres, freshId)
    ensures RemainingGenres(AddedGenres(genres, input, freshId), freshId) == genres
  {
    if CanAdd(genres, input) {
      RemainingGenresConcat(genres, [Genre(freshId, input)], freshId);
      assert RemainingGenres([Genre(freshId, input)], freshId) == [];
    }
  }

  /** The dashboard's genre state: the list and the text in the input box. */
  class GenreBoard {
    var genres: seq<Genre>
    var newGenre: string

    constructor ()
      ensures genres == [] && newGenre == ""
    {
      genres := [];
      newGenre := "";
    }

    /** The input box's `onChange`. */
    method SetNewGenre(text: string)
      modifies this
      ensures newGenre == text && genres == old(genres)
    {
      newGenre := text;
    }

    /**
     * `handleAddGenre`: appends the input text, verbatim, under `freshId`, and
     * clears the input, unless the input is blank or its name is taken.
     */
    method AddGenre(freshId: string) returns (added: bool)
      modifies this
      ensures added == (Trim(old(newGenre)) != [] && !HasName(old(genres), old(newGenre)))
      ensures added ==> genres == old(genres) + [Genre(freshId, old(newGenre))] && newGenre == ""
      ensures !added ==> genres == old(genres) && newGenre == old(newGenre)
      ensures genres == AddedGenres(old(genres), old(newGenre), freshId)
      ensures IsBlank(old(newGenre)) ==> !added
      ensures NamesDistinct(old(genres)) ==> NamesDistinct(genres)
    {
      TrimEmptyIffBlank(newGenre);
      added := CanAdd(genres, newGenre);
      if added {
        genres := genres + [Genre(freshId, newGenre)];
        newGenre := "";
      }
    }

    /** `handleRemoveGenre`: drops every genre with that id. */
    method RemoveGenre(id: string)
      modifies this
      ensures genres == RemainingGenres(old(genres), id) && newGenre == old(newGenre)
      ensures forall g :: g in genres <==> g in old(genres) && g.id != id
      ensures !HasId(old(genres), id) ==> genres == old(genres)
      ensures NamesDistinct(old(genres)) ==> NamesDistinct(genres)
      ensures IdsDistinct(old(genres)) ==> IdsDistinct(genres)
    {
      RemainingGenresMembers(genres, id);
      if NamesDistinct(genres) {
        RemoveKeepsNamesDistinct(genres, id);
      }
      if IdsDistinct(genres) {
        RemoveKeepsIdsDistinct(genres, id);
      }
      genres := RemainingGenres(genres, id);
    }

    /** `handleSelectFromList`: appends the preset unless its name is taken. */
    method SelectFromList(genre: string, freshId: string)
      requires genre in AvailableGenres
      modifies this
      ensures !HasName(old(genres), genre) ==> genres == old(genres) + [Genre(freshId, genre)]
      ensures HasName(old(genres), genre) ==> genres == old(genres)
      ensures genres == SelectedGenres(old(genres), genre, freshId) && newGenre == old(newGenre)
      ensures NamesDistinct(old(genres)) ==> NamesDistinct(genres)
    {
      if FindByName(genres, genre).None? {
        genres := genres + [Genre(freshId, genre)];
      }
    }
  }
}
