# Track kinematics and LINESTRING export, modelled in Dafny

This project models the core of a small GPS-track analysis tool.

`mvp_code.py` reads a KML file and keeps every `lon,lat[,alt]` triple
found in its `<coordinates>` elements. It builds a frame with a
`Point(lon, lat)` geometry per row and adds four columns in place:

- the geodesic distance from the previous point;
- the speed in m/s and in km/h, for a uniform time step of
  `total_time / (num_points - 1)`;
- the acceleration, the pandas `diff()` of the speed over the step.

`single_list.py` turns each CSV track into a WKT string
`LINESTRING(lon lat, lon lat, ...)` and collects one row per file:
linestring, file name and a 1-based test id.

The model is split into five modules:

- `Options` (`options.dfy`): `Option` and `Result`.
- `Strings` (`strings.dfy`): Python's whitespace set, `str.strip()`,
  `str.split()` with no argument, `str.split(',')`, which keeps empty pieces,
  and `sep.join(...)`, with their round trips.
- `KmlCoordinates` (`kml_coordinates.dfy`): `extract_kml_coordinates`.
  - The two nested loops are methods proved against the function `ExtractAll`.
  - `ExtractAll` is characterised by lemmas: skipped tokens leave no trace,
    the result is the flattening over elements, and extra fields are ignored.
  - A formatter `Encode` is its partner: encoding samples and extracting
    them gives the same samples back, whenever the written numbers' texts
    read back.
- `Kinematics` (`kinematics.dfy`): `compute_distance` and `velocity_column`.
  - The frame is the class `TrackFrame`; `velocity_column` is its method
    `VelocityColumn`, which assigns the four column fields.
  - The columns are specified entry by entry (`ColumnsOf`).
  - Lemmas prove the following:
    - the distances add up to the length of the path;
    - speed times step adds up to that length;
    - the accelerations telescope to the change of speed;
    - the km/h column is the same motion in km and hours.
  - `AnalyseTrack` is `main` without its printing.
- `Linestrings` (`linestrings.dfy`): `build_linestring_wkt` and the
  collecting loop of `main`.
  - A WKT reader `ParseLinestring` is the partner of the writer: every WKT
    the writer produces reads back as the zipped vertices, whenever the
    written numbers' texts read back.

Three external operations are parameters, not code:

- Python's `float()` on a string is `parse: string -> Option<real>`, where
  `None` stands for `ValueError`.
- `str()`/f-string formatting of a float is `fmt: real -> string`.
- geopy's WGS-84 `geodesic(...).meters` is
  `geodesic: (LatLon, LatLon) -> real`.

The round-trip lemmas assume of `parse` and `fmt` only what Python
guarantees, and only for the numbers actually written:

- `float('')` fails;
- for each number `x` written (`RoundTrips`), `float(str(x)) == x`, and the
  text holds no comma and no whitespace. Python promises this of every
  float but NaN; the model's numbers are reals, so it is required number by number.

## Model

| member | source | states |
|---|---|---|
| Strings.TrimStart | mvp_code.py:29 | the result is a suffix of the input; everything removed is whitespace; the result does not start with whitespace |
| Strings.StripMeaning | mvp_code.py:29 | the stripped text is empty exactly when the text is all whitespace, and otherwise starts and ends with a non-whitespace character |
| Strings.TrimEnd | mvp_code.py:29 | the result is a prefix of the input; everything removed is whitespace; the result does not end with whitespace |
| Strings.WordsStrip | mvp_code.py:29-34 | splitting the stripped text on whitespace gives the same tokens as splitting the raw text |
| Strings.WordsEmptyIffBlank | mvp_code.py:29-31 | a text has no tokens exactly when it is all whitespace (the `if not text: continue` case) |
| Strings.Words | mvp_code.py:34 | `str.split()`: every token is non-empty and free of whitespace |
| Strings.WordsSplitAtSpace | mvp_code.py:34 | any run of one or more whitespace characters (a newline plus indentation, say) separates tokens: the tokens on both sides are kept, in order, and nothing else appears |
| Strings.WordsOfJoin | mvp_code.py:34 | splitting on whitespace undoes joining tokens with single spaces |
| Strings.Find | mvp_code.py:36 | first position of the separator, or the length when it is absent |
| Strings.Split | mvp_code.py:36 | `str.split(',')`: at least one piece, and no piece holds a comma |
| Strings.JoinSplit | mvp_code.py:36 | joining the pieces of a split with the separator gives back the string |
| Strings.SplitJoin | mvp_code.py:36 | splitting a join of comma-free pieces gives back the pieces |
| KmlCoordinates.ParseFields | mvp_code.py:36-52 | a triple is produced exactly when there are at least two fields and the first two parse; lon/lat are the parsed first two fields; the altitude is present exactly when a non-empty third field parses; an empty lon or lat field is never accepted |
| KmlCoordinates.CommaFreeTokenSkipped | mvp_code.py:36-38 | a token without a comma splits into one field and is skipped |
| KmlCoordinates.AcceptTokens | mvp_code.py:34-52 | the tokens of one element yield at most one triple each |
| KmlCoordinates.ExtractAll | mvp_code.py:13-54 | the extraction yields at most as many triples as there are tokens in all elements |
| KmlCoordinates.ExtractKmlCoordinates | mvp_code.py:25-54 | the element loop returns exactly `ExtractAll` of the element texts, with a missing text read as empty and blank texts skipped |
| KmlCoordinates.AppendTokenCoordinates | mvp_code.py:34-52 | the token loop appends exactly the accepted triples of the tokens, in order, to the list so far |
| KmlCoordinates.SkipToken | mvp_code.py:37-43 | a token rejected for too few fields or an unparsable lon/lat adds nothing to the output |
| KmlCoordinates.TakeToken | mvp_code.py:45-52 | an accepted token appends its triple at the end |
| KmlCoordinates.AcceptTokensAppend | mvp_code.py:34-52 | the output of a token list is the concatenation of the outputs of its parts |
| KmlCoordinates.SkippedTokenLeavesNoTrace | mvp_code.py:37-43 | removing a malformed token from anywhere in the stream does not change the output |
| KmlCoordinates.ExtractAllFlattens | mvp_code.py:28-54 | the result over all elements is the result over the concatenation of their tokens (element boundaries do not matter) |
| KmlCoordinates.BlankElementContributesNothing | mvp_code.py:29-31 | an element with no text (read as `''` by `ElementText`) or only whitespace adds no triple |
| KmlCoordinates.ExtraFieldsIgnored | mvp_code.py:36-50 | fields after the third never change the decision for a token |
| KmlCoordinates.TokenRoundTrip | mvp_code.py:35-52 | a token written as `lon,lat[,alt]` parses back to the same triple, whenever its numbers' texts read back |
| KmlCoordinates.AcceptedEncoded | mvp_code.py:35-52 | such a token contributes exactly its triple |
| KmlCoordinates.ExtractRoundTrip | mvp_code.py:28-54 | a coordinates text of space-separated encoded triples extracts to exactly those triples, whenever their numbers' texts read back |
| KmlCoordinates.AcceptEach | mvp_code.py:34-52 | tokens that each yield their own triple yield the whole list, in order |
| Kinematics.DistanceOfSamples | mvp_code.py:68-70 | `compute_distance` of two rows' `Point(lon, lat)` geometries is the geodesic between their (lat, lon) pairs: the two coordinate swaps compose |
| Kinematics.StepDistances | mvp_code.py:75-80 | `distances` starts with 0 and holds the distance from each point to the one before; it has one entry even for an empty frame |
| Kinematics.DistanceList | mvp_code.py:75-80 | the distance loop computes exactly `StepDistances` |
| Kinematics.TimeStep | mvp_code.py:76 | the step times `num_points - 1` is the total time (also for `num_points = 0`); a non-zero total gives a non-zero step |
| Kinematics.VelocityColumns | mvp_code.py:72-89 | with a geodesic that never raises (geopy's range errors are not modelled): division by zero exactly when there is one point; otherwise the columns meet `ColumnsOf`; an empty frame gets the one row 0, 0, 0, missing |
| Kinematics.EmptyFrameColumns | mvp_code.py:74-87 | an empty frame takes the one-entry `distances` list as its rows: distance 0, speed 0, no acceleration |
| Kinematics.BuildColumnsMeetsSpec | mvp_code.py:82-87 | the columns computed with `Velocity`, `Kph` and `Acceleration` (`Diff` then `DivideColumn`) meet the entry-by-entry definition `ColumnsOf` |
| Kinematics.AccelerationColumn | mvp_code.py:87 | the first acceleration is missing, the others are the change of speed over the step |
| Kinematics.AccelerationsAreDefined | mvp_code.py:87 | any column meeting that definition is the computed acceleration column |
| Kinematics.DistancesSumToPathLength | mvp_code.py:75-82 | the distance column adds up to the length of the path through the points |
| Kinematics.SumOfQuotients | mvp_code.py:83 | the speed column times the step adds up to the distance column's sum |
| Kinematics.SpeedsIntegrateToPathLength | mvp_code.py:75-83 | the speeds times the step add up to the length of the track |
| Kinematics.DiffTelescopes | mvp_code.py:87 | the successive differences of a column add up to its last value minus its first |
| Kinematics.SumOfDivided | mvp_code.py:87 | dividing a nullable column by the step divides the sum of its values |
| Kinematics.AccelerationsTelescope | mvp_code.py:83-87 | the accelerations times the step add up to the last speed minus the first |
| Kinematics.ColumnsInTermsOfDistance | mvp_code.py:75-87 | the first speed is 0; km/h is the distance in km over the step in hours; each acceleration is the second difference of distance over the step squared |
| Kinematics.KphConversion | mvp_code.py:84 | m/s times 3.6 is km per hour |
| Kinematics.TrackFrame.constructor | mvp_code.py:56-66 | the frame holds the rows, its geometry (`Geometry`) is `Point(lon, lat)` per row, and the kinematic columns are empty |
| Kinematics.TrackFrame.VelocityColumn | mvp_code.py:72-89 | on division by zero (the only exception modelled) the exception is reported and the columns are untouched; otherwise the four columns are those `VelocityColumns` gives; rows and geometry never change |
| Kinematics.AnalyseTrack | mvp_code.py:91-97 | the frame holds exactly the extracted triples; the frame cannot be built (no geometry column) exactly when none was extracted, division by zero exactly when one was (geopy's range errors are not modelled); otherwise the columns are those of the track with the total time of 349 s |
| Linestrings.Zip | single_list.py:37 | `zip` stops at the shorter column; vertex i pairs lon[i] with lat[i] |
| Linestrings.BuildLinestringWkt | single_list.py:32-39 | the result starts with `LINESTRING(` and ends with `)`; with an empty column it is `LINESTRING()` |
| Linestrings.ParseVertices | single_list.py:38 | the reader accepts a list exactly when every piece is a vertex, and keeps their order |
| Linestrings.ParseLinestring | single_list.py:38 | only text with the `LINESTRING(` prefix and a closing `)` is accepted |
| Linestrings.SplitCommaSpace | single_list.py:38 | splitting a `', '`-join on commas gives the first text and the others each with one leading space |
| Linestrings.VertexRoundTrip | single_list.py:37 | the text `VertexText` writes for a vertex (`f"{lon} {lat}"`) reads back as the vertex, with or without a leading space, whenever both numbers' texts read back |
| Linestrings.LinestringRoundTrip | single_list.py:32-39 | the WKT written for two columns reads back as the zipped vertices, every one in order and nothing else, whenever the written numbers' texts read back |
| Linestrings.CollectLinestrings | single_list.py:11-20 | one row per file, in order: its WKT, its name, and test id `i + 1` |
| Linestrings.TableRowsRoundTrip | single_list.py:15-20 | every linestring of the table reads back as its file's vertices (whenever its numbers' texts read back), and test ids are pairwise distinct |

## Left out

- Locating `<coordinates>` elements in the KML tree (`ET.parse`, `findall`
  with the KML namespace) is not modelled. The input is the sequence of their
  texts, in document order, with `None` for an element without text.
- Python's `float()` is not modelled beyond the parameter `parse`. Nor is the
  formatting of a float, beyond the parameter `fmt`. The round-trip lemmas
  assume only the facts listed above, and only for the numbers written.
- The geodesic on the WGS-84 ellipsoid (geopy) is the parameter `geodesic`.
  No property of its value is assumed, but a total function does assume
  that it never raises. geopy raises `ValueError` for a latitude outside
  [-90, 90] or a non-finite coordinate; the source does not check the
  parsed numbers before passing them (mvp_code.py:40-41, 70), and the
  model has no error for that.
- Floating-point rounding, `inf` and `NaN` are left out: all arithmetic is
  on exact reals.
- Kinematics.VelocityColumns: excludes a zero total time unless there is
  exactly one point (`requires |pts| == 1 || total != 0.0`). There pandas
  divides by a zero step and fills the columns with `inf`/`NaN` instead of
  raising. It also does not model geopy's `ValueError` for a latitude
  outside [-90, 90] or a non-finite coordinate at mvp_code.py:70, so
  "division by zero exactly when there is one point" holds only for valid
  coordinates; with an invalid one and two or more points the source
  raises where the model returns columns.
- Kinematics.TrackFrame.VelocityColumn: excludes a zero total time unless
  the frame has exactly one row (`requires |rows| == 1 || total != 0.0`),
  where pandas fills the columns with `inf`/`NaN` instead of raising. It
  does not model geopy's `ValueError` for a latitude outside [-90, 90] or a
  non-finite coordinate, so its only reported exception is division by
  zero, which holds only for valid coordinates. On an empty frame pandas
  also gives the frame the one row of the new columns, with the other
  columns missing; the model keeps `rows` and `geometry` empty and sets the
  four columns to their one entry.
- Kinematics.AnalyseTrack: does not model geopy's `ValueError` for a
  latitude outside [-90, 90] or a non-finite coordinate. For a file whose
  triples include one (the tokens `0,95 0,96`, say), the source raises in
  the distance loop at mvp_code.py:79, where the model reports no
  exception and returns the columns. Its "division by zero exactly when
  one triple was extracted" holds only for valid coordinates.
- Kinematics.TrackFrame.constructor: accepts no rows. geopandas refuses to
  build a frame from an empty record list at mvp_code.py:65 (no `geometry`
  column to set); `AnalyseTrack` reports that case as `UnknownGeometryColumn`
  before `velocity_column` runs.
- `coords_to_geodataframe` is left out beyond the geometry column. This
  includes the GeoDataFrame, its CRS `EPSG:4326` and the `lon`/`lat`/`alt`
  columns (the rows are kept as they are).
- No lemma states the mean speed as a quotient. Kinematics.SpeedsIntegrateToPathLength
  states it multiplied out: speed sum times step equals path length.
- Printing (`print` in both `main` functions) is left out, being output only.
  So are `read_data` (CSV reading), `dict_to_dataframe`,
  `safe_dataframe_to_csv` (directory creation and CSV writing) and the
  `glob` of the results folder. In `CollectLinestrings`, each file is given
  as its name and its two columns, in the order the glob returned them.
- Linestrings.BuildLinestringWkt: its own contract states only the
  `LINESTRING(` prefix, the closing `)` and the empty case. The vertices it
  holds, their count and order are stated by `LinestringRoundTrip`, for
  numbers whose texts read back. For other reals (those no float equals)
  nothing is stated about the text.
- Linestrings.ParseLinestring: is a reader written for the round trip. The
  source has no WKT reader, and it is not a general WKT parser.
