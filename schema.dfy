/**
 * The two mongoose models, `Movie` and `Actor`: which collection an intent targets,
 * the paths each schema declares, and the text path each one requires.
 */
module Schema {

  datatype Kind = Movie | Actor

  /** `Model.modelName.toLowerCase()` */
  function EntityName(k: Kind): string {
    match k
    case Movie => "movie"
    case Actor => "actor"
  }

  function Other(k: Kind): (o: Kind)
    ensures o != k
  {
    match k
    case Movie => Actor
    case Actor => Movie
  }

  /** The paths a strict schema keeps on insert and on `$set`. */
  function Paths(k: Kind): set<string> {
    match k
    case Movie =>
      {"Id", "Title", "Genres", "Genre", "Description", "Director", "Actors",
       "Year", "Runtime", "Rating", "Votes", "Revenue"}
    case Actor => {"Id", "Name"}
  }

  /** The paths of type `Number`, which the store casts a filter or update value to. */
  function NumericPaths(k: Kind): (ps: set<string>)
    ensures "Id" in ps && ps <= Paths(k)
  {
    match k
    case Movie => {"Id", "Year", "Runtime", "Rating", "Votes", "Revenue"}
    case Actor => {"Id"}
  }

  /** The paths declared as arrays (`[String]`), which take an array as their value. */
  function ListPaths(k: Kind): (ps: set<string>)
    ensures ps <= Paths(k) && ps !! NumericPaths(k)
  {
    match k
    case Movie => {"Genres"}
    case Actor => {}
  }

  /** The required string path besides `Id`: `Title` for a movie, `Name` for an actor. */
  function RequiredText(k: Kind): (key: string)
    ensures key in Paths(k)
  {
    match k
    case Movie => "Title"
    case Actor => "Name"
  }
}
