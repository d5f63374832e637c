# Montreal one-bedroom rental statistics: the listing pipeline

The dashboard in `montreal_housing.py` loads a table of scraped one-bedroom rental
listings and keeps twelve columns. It drops rows without a price, then keeps only
boroughs (neighbourhoods) with more than six listings. It offers those boroughs in a
selector. For the selected borough it reports:

- the number of listings;
- a count per property type;
- the minimum, mean and maximum price (the median is computed but not displayed);
- the same price figures for the listings that have every utility the user
  selected ("Yes" in each selected column).

This project models that pipeline as pure Dafny functions over `seq<Listing>` and
proves its guarantees. The modules are:

- `Wrappers`: `Option` and `Result`.
- `Seqs`: generic boolean-mask selection (`Filter`), counting (`CountIf`) and the
  subsequence relation, with the laws the pipeline stages inherit.
- `Listings`: the listing record, the projection onto the twelve columns and the price
  filter (`practical_data`).
- `Boroughs`: the more-than-six threshold (`real_data`), the sorted group keys
  (`group_names`), and the scan over the groups that finds the selected borough.
- `Stats`: the four figures the script computes from `Series.describe()` (the median
  is computed but not displayed), computed exactly. The median uses linear
  interpolation between the middle order statistics.
  A missing summary is `None`.
- `Dashboard`: the property-type breakdown, the utility filter, the per-borough page
  and the whole pipeline from the file as read (`Page`).

Prices are integers, and mean and median are exact `real`s. The selector value is an
`Option<string>`: `None` when the selector is empty. The utility selection is a set of
`Utility` values.

Three behaviours of the code that the model keeps:

- Group names are in sorted order, because pandas sorts group keys. Python's order is
  code point by code point, with a proper prefix first.
- Rows with a missing neighbourhood belong to no group: `groupby` drops missing keys,
  so their group size is missing and `> 6` is false.
- A selector value that names no kept borough renders nothing; `Report` gives `None`,
  not an error.

## Model

| member | source | states |
|---|---|---|
| `Listings.Project` | montreal_housing.py:18-20 | Projection succeeds exactly when the header has all twelve chosen columns. It then keeps every row, in order, with its chosen cells. Otherwise it fails and names exactly the missing columns (pandas raises `KeyError`). |
| `Listings.DropMissingPrice` | montreal_housing.py:22-23 | Every row of `practical_data` has a price. |
| `Listings.DropMissingPriceExact` | montreal_housing.py:20-23 | The price filter keeps an order-preserving subsequence of the projected rows. Each priced row keeps its multiplicity and each unpriced row is gone. The result has as many rows as the input has priced rows. |
| `Listings.DropMissingPriceKeepsPriced` | montreal_housing.py:23 | If every row already has a price, the filter returns the rows unchanged. |
| `Listings.Load` | montreal_housing.py:18-23 | Loading fails exactly when projection fails. Every loaded row has a price. |
| `Listings.LoadMembership` | montreal_housing.py:18-23 | A row is loaded iff it has a price and is the chosen part of some row of the file. |
| `Seqs.Filter` | montreal_housing.py:137 | A boolean-mask selection keeps only rows that are in the input and pass the mask. Every input row that passes is kept. |
| `Seqs.FilterIsSubsequence` | montreal_housing.py:137 | A mask selection keeps the relative order of the rows (an order-preserving subsequence). |
| `Seqs.FilterMultiplicity` | montreal_housing.py:137 | A row that passes the mask occurs as often as in the input; one that fails does not occur. |
| `Seqs.FilterFilter` | montreal_housing.py:137 | Selecting by one mask and then another equals selecting once by their conjunction. |
| `Seqs.CountAfterFilter` | montreal_housing.py:27 | If a mask treats all rows of a class alike, selection keeps the whole class or none of it. |
| `Boroughs.KeepLargeBoroughs` | montreal_housing.py:26-27 | Every row of `real_data` has a neighbourhood whose group in `practical_data` has more than six rows. |
| `Boroughs.KeepLargeBoroughsExact` | montreal_housing.py:27 | A row is in `real_data` iff it is in `practical_data` and its neighbourhood occurs more than six times there. Kept rows keep their multiplicity and their relative order. |
| `Boroughs.OccurrencesAfterThreshold` | montreal_housing.py:27 | Boroughs are kept or dropped whole. A borough with more than six rows keeps all of them, and any other borough has none. |
| `Boroughs.KeepLargeBoroughsIdempotent` | montreal_housing.py:27 | Applying the threshold to `real_data` again changes nothing. |
| `Boroughs.StrLessTotal` | montreal_housing.py:30-33 | Python string order is total on distinct strings, so group keys can be sorted. |
| `Boroughs.StrLessTransitive` | montreal_housing.py:30-33 | Python string order is transitive. |
| `Boroughs.Occurrences` | montreal_housing.py:27 | A neighbourhood's group size is at most the number of rows, and zero exactly when no row has that neighbourhood. |
| `Boroughs.Groups` | montreal_housing.py:30 | The groups come in strictly increasing key order. Every neighbourhood that occurs has a group, and every group's key occurs. Every group is non-empty, holds every row of its neighbourhood and holds no other row; it is that key's `BoroughRows`, so `BoroughRowsExact` gives its order and multiplicities. |
| `Boroughs.BoroughRows` | montreal_housing.py:48 | `get_group` returns only rows of that neighbourhood, and every such row. |
| `Boroughs.BoroughRowsExact` | montreal_housing.py:48 | `get_group` keeps table order, and each row of the neighbourhood occurs in the group as often as in the table; rows of other neighbourhoods do not occur. |
| `Boroughs.SelectBorough` | montreal_housing.py:43-48 | Selection yields a group exactly when the selector holds one of `group_names`. The group has that name and holds exactly that borough's rows. |
| `Boroughs.GroupKeys` | montreal_housing.py:30-33 | The group keys are strictly sorted, so they are distinct. They are exactly the neighbourhoods that occur, with missing ones dropped. |
| `Boroughs.GroupKeysDistinct` | montreal_housing.py:30-33 | No two group keys are equal, so at most one group matches the selector. |
| `Boroughs.GroupNamesAreLargeBoroughs` | montreal_housing.py:27-33 | `group_names` is strictly sorted. It offers a name iff `practical_data` has more than six rows of it. Each offered name has the same number of rows, at least seven, in `real_data`. |
| `Boroughs.BoroughRowsCount` | montreal_housing.py:48 | A borough's group has as many rows as its neighbourhood's occurrences. |
| `Boroughs.Scan` | montreal_housing.py:45-48 | The loop over the groups yields a group whose key equals the selector value, or nothing when no key equals it. |
| `Boroughs.SelectBoroughExact` | montreal_housing.py:43-48 | Selection yields rows exactly when the selector holds an offered name. The rows are exactly that borough's rows in table order, taken from `real_data` or from `practical_data` alike. There are more than six of them, the count the page reports. |
| `Boroughs.BoroughRowsFromPractical` | montreal_housing.py:27 | For a kept borough, its rows before and after the threshold are the same. |
| `Dashboard.PropertyTypeCounts` | montreal_housing.py:49 | The breakdown has a key iff that property type occurs. Each key's value is its number of rows, so it is positive. Missing types are not counted. |
| `Dashboard.PropertyTypeCountsKeys` | montreal_housing.py:49 | A property type is a key of the breakdown exactly when some row has it. |
| `Dashboard.PropertyTypeCountsSum` | montreal_housing.py:49 | The counts add up to the number of rows whose property type is known. |
| `Dashboard.UtilityFilter` | montreal_housing.py:134-137 | Every kept row holds exactly "Yes" in every selected utility column, and is an input row. Every input row that does is kept. |
| `Dashboard.UtilityFilterExact` | montreal_housing.py:137 | The utility filter keeps the rows' order, and each passing row keeps its multiplicity. |
| `Dashboard.UtilityFilterEmpty` | montreal_housing.py:137 | An empty selection returns the rows unchanged. |
| `Dashboard.UtilityFilterCompose` | montreal_housing.py:137 | Filtering by selection A and then by B equals filtering once by A together with B. |
| `Dashboard.UtilityFilterIdempotent` | montreal_housing.py:137 | Filtering twice by the same selection equals filtering once. |
| `Dashboard.UtilityFilterMonotone` | montreal_housing.py:137 | Selecting more utilities keeps a subsequence of what fewer utilities keep. |
| `Dashboard.ReportSelectsBorough` | montreal_housing.py:45-58 | A page body exists exactly when the selector names a borough with more than six priced rows. It is then built from exactly that borough's rows. |
| `Dashboard.BoroughPageSummaries` | montreal_housing.py:78-145 | For priced borough rows, the borough summary always exists. The filtered summary is missing exactly when no row has every selected utility. |
| `Dashboard.ReportFacts` | montreal_housing.py:45-145 | For a kept borough, the report holds its name and the count of all its listings (more than six). Its breakdown is `PropertyTypeCounts` of the borough's rows, and its summary is their `PriceSummary`, which exists. The filtered rows are the borough's rows with every selected utility, the number found is their count, and their summary is their `PriceSummary`, present exactly when some exist. |
| `Dashboard.HasUtilities` | montreal_housing.py:137 | With no utility selected every row passes the mask. A row whose value in some selected column is missing or is not "Yes" fails it. |
| `Dashboard.BoroughPage` | montreal_housing.py:48-145 | The page counts the borough's rows. Its breakdown is `value_counts()` of their property types (`PropertyTypeCounts`), so no type is counted more often than there are rows. Its summary is `describe()` of their prices (`PriceSummary`). The filtered rows are the mask result (`UtilityFilter`), drawn from the borough's rows and no more numerous, with their own `PriceSummary`. Each price summary is missing exactly when its rows have no price. |
| `Dashboard.Report` | montreal_housing.py:45-145 | A page body exists exactly when the selector names one of `group_names`. It is then the page of that borough's rows. |
| `Dashboard.Page` | montreal_housing.py:18-145 | From the file as read, the page fails exactly when a chosen column is missing. Otherwise it shows a borough iff more than six loaded rows belong to it. |
| `Stats.MinOf` | montreal_housing.py:79 | The minimum is one of the prices and no price is below it. |
| `Stats.MaxOf` | montreal_housing.py:82 | The maximum is one of the prices and no price is above it. |
| `Stats.SortPrices` | montreal_housing.py:81 | The order statistics are a sorted permutation of the prices. |
| `Stats.Summarize` | montreal_housing.py:78-82 | A summary exists iff there are prices. Its minimum and maximum are prices that bound every price, with min <= mean <= max and min <= median <= max. |
| `Stats.PricesOfPricedRows` | montreal_housing.py:78 | When every row has a price, the summarised prices are the rows' prices, one per row, in order. |
| `Stats.Mean` | montreal_housing.py:80 | The mean of a non-empty list of prices lies between their minimum and their maximum. |
| `Stats.SortedEnds` | montreal_housing.py:79-82 | The first order statistic is the minimum and the last is the maximum. |
| `Stats.MedianMiddle` | montreal_housing.py:81 | The interpolated 50% figure is the middle price for an odd count. For an even count it is the mean of the two middle prices. |
| `Stats.MiddleInterpolationCases` | montreal_housing.py:81 | Interpolating at the 50% position gives the middle value for an odd count and the mean of the two middle values for an even count. |
| `Stats.InterpolationWithin` | montreal_housing.py:81 | The interpolated middle of sorted values lies between the first and the last. |
| `Stats.Median` | montreal_housing.py:81 | The median of a non-empty list of prices lies between their minimum and their maximum. |
| `Stats.Prices` | montreal_housing.py:78 | `describe()` summarises one value per row that has a price. A value is summarised exactly when some row has that price; missing prices are skipped. |
| `Stats.PricesSkipMissing` | montreal_housing.py:78 | The summarised prices are those of the rows with a price, one per such row, in row order. |
| `Stats.PriceSummary` | montreal_housing.py:141-145 | A group's price summary is missing (NaN) exactly when none of its rows has a price. |
| `Stats.GaugeRange` | montreal_housing.py:92 | The gauge axis starts below the minimum and ends above the maximum. |
| `Stats.GaugeContainsSummary` | montreal_housing.py:89-115 | The gauge axis [min - 200, max + 100] strictly contains all four figures. |
| `Stats.SortPricesOfSorted` | montreal_housing.py:81 | Prices already in ascending order are their own order statistics. |
| `Stats.SevenPricesSummary` | montreal_housing.py:78-82 | Prices 1000, 1200, 1500, 1500, 2000, 2500 and 3000 give min 1000, mean 12700/7, median 1500 and max 3000. |

## Left out

- Reading the CSV file (`pd.read_csv`, line 14) is file I/O. The model starts from a
  `RawTable` whose twelve chosen cells are already decoded. Decoding text cells into
  typed values is not modelled.
- Prices are whole numbers. Fractional prices and the IEEE floating point of pandas are
  not modelled: mean and median are exact rationals, and NaN is `None`.
- All Streamlit output is UI: page setup, titles, columns, the per-type lines written
  at lines 59-60, the "listings found" text, and the expander with the data frame.
- The Plotly histograms, scatter plots and indicator figures are chart rendering by an
  external library. Only the gauge range arithmetic of line 92 is modelled. The script
  builds a median gauge (and computes `median_sprice`) but never shows them. The model
  still computes both medians.
- Widget defaults (the `['Electricity', 'Water']` default of the multiselect) are UI
  state. The selection is a parameter.
- The unused imports at lines 1-10 do nothing.
- `Dashboard.PropertyTypeCounts`: does not model the order of `value_counts`
  (descending count), because a map holds only the counts. That order affects only the
  order of the lines written at 59-60.
- `Dashboard.UtilityFilter`: the multiselect yields a list. The model takes a set,
  because the order and repetition of the selected columns do not change which rows
  pass.
- `Boroughs.Scan`: the script's loop does not stop at the match. Group keys are
  distinct (`GroupKeys` is strictly sorted), so exactly one group matches. The model
  returns that group.
- `reset_index(drop=True)` at line 27 renumbers the row index. A sequence has no index
  labels, so this has no counterpart.
