/** The catalog slice: one record updated in place by the synchronous
    reducers (page, type, search) and by the pending, fulfilled and rejected
    cases of the five operations. */
module PokemonSlice {
  import opened Wrappers
  import opened Pokemons
  import opened PokemonThunks

  /** The operations whose lifecycle the slice tracks. */
  datatype Operation = GetPokemons | GetPokemonById | AddPokemon | EditPokemon | DeletePokemon

  /** A numeric action payload is truthy when it is present and not zero. */
  predicate Truthy(payload: Option<int>) {
    payload.Some? && payload.value != 0
  }

  class Slice {
    /** Declared by the initial state; no case handler writes it. */
    var isLoading: bool
    /** Written by every case handler; undefined (None) until the first one runs. */
    var loading: Option<bool>
    /** Written by the pending and rejected handlers; undefined (None) until then. */
    var errorMessage: Option<string>
    var pokemons: seq<Pokemon>
    var pokemon: PokemonDetail
    var search: string
    /** The state's `type` filter. */
    var filterType: string
    var page: int

    /** The initial state. */
    constructor ()
      ensures !isLoading && loading == None && errorMessage == None
      ensures pokemons == [] && pokemon == EmptyDetail
      ensures search == "" && filterType == "" && page == 1
    {
      isLoading := false;
      loading := None;
      errorMessage := None;
      pokemons := [];
      pokemon := EmptyDetail;
      search := "";
      filterType := "";
      page := 1;
    }

    /** A truthy payload becomes the page; an absent or zero one advances the page by one. */
    method ChangePage(payload: Option<int>)
      modifies this`page
      ensures Truthy(payload) ==> page == payload.value
      ensures !Truthy(payload) ==> page == old(page) + 1
    {
      if Truthy(payload) {
        page := payload.value;
      } else {
        page := page + 1;
      }
    }

    method TypeQuery(payload: string)
      modifies this`filterType
      ensures filterType == payload
    {
      filterType := payload;
    }

    method SearchQuery(payload: string)
      modifies this`search
      ensures search == payload
    {
      search := payload;
    }

    /** The pending case, the same for every operation: loading is set and the error cleared. */
    method Pending(op: Operation)
      modifies this`loading, this`errorMessage
      ensures loading == Some(true) && errorMessage == Some("")
    {
      loading := Some(true);
      errorMessage := Some("");
    }

    /** A filter is active and the first page is requested: a list page starts the list over. */
    predicate StartsOver()
      reads this
    {
      (search != "" || filterType != "") && page == 1
    }

    /** The list arrived: it replaces the list when a filtered search starts
        over, and is otherwise merged by appending the entities not yet listed. */
    method GetPokemonsFulfilled(payload: seq<Pokemon>)
      modifies this`loading, this`pokemons
      ensures loading == Some(false)
      ensures StartsOver() ==> pokemons == payload
      ensures !StartsOver() ==> pokemons == AppendUnseen(old(pokemons), payload)
      ensures !StartsOver() ==> old(pokemons) <= pokemons
      ensures !StartsOver() && DistinctIds(old(pokemons)) && DistinctIds(payload) ==> DistinctIds(pokemons)
    {
      loading := Some(false);
      if StartsOver() {
        pokemons := payload;
      } else {
        if DistinctIds(pokemons) && DistinctIds(payload) {
          AppendUnseenKeepsDistinct(pokemons, payload);
        }
        pokemons := AppendUnseen(pokemons, payload);
      }
    }

    /** The detail arrived: it becomes the detail record. */
    method GetPokemonByIdFulfilled(payload: PokemonDetail)
      modifies this`loading, this`pokemon
      ensures loading == Some(false) && pokemon == payload
    {
      loading := Some(false);
      pokemon := payload;
    }

    method AddPokemonFulfilled()
      modifies this`loading
      ensures loading == Some(false)
    {
      loading := Some(false);
    }

    method DeletePokemonFulfilled()
      modifies this`loading
      ensures loading == Some(false)
    {
      loading := Some(false);
    }

    /** The update succeeded, as the source handles it: loading is set, not cleared. */
    method EditPokemonFulfilled()
      modifies this`loading
      ensures loading == Some(true)
    {
      loading := Some(true);
    }

    /** The update succeeded, handled like every other fulfilled case: loading is cleared. */
    method EditPokemonFulfilledCorrected()
      modifies this`loading
      ensures loading == Some(false)
    {
      loading := Some(false);
    }

    /** The rejected case, the same for every operation: loading is cleared and
        the message is taken from the rejection payload when there is one, else
        from the error. */
    method Rejected(op: Operation, payload: Option<Failure>, error: Failure)
      modifies this`loading, this`errorMessage
      ensures loading == Some(false)
      ensures payload.Some? ==> errorMessage == Some(payload.value.message)
      ensures payload.None? ==> errorMessage == Some(error.message)
    {
      loading := Some(false);
      if payload.Some? {
        errorMessage := Some(payload.value.message);
      } else {
        errorMessage := Some(error.message);
      }
    }
  }

  /** One successful update as the source handles it: after dispatch and
      fulfilment the slice still reports loading. */
  method EditSettledAsWritten() returns (loading: Option<bool>)
    ensures loading == Some(true)
  {
    var s := new Slice();
    s.Pending(EditPokemon);
    s.EditPokemonFulfilled();
    loading := s.loading;
  }

  /** The same update with the corrected handler: loading is clear once it settles. */
  method EditSettledCorrected() returns (loading: Option<bool>)
    ensures loading == Some(false)
  {
    var s := new Slice();
    s.Pending(EditPokemon);
    s.EditPokemonFulfilledCorrected();
    loading := s.loading;
  }
}
