/** The optional value used wherever the dashboard's dataframe would hold NaN / NaT,
    or a Dash callback would answer `no_update`. */
module Options {

  datatype Option<+T> = None | Some(value: T)
}
